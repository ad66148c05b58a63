// The one token ruler of src/agent/context.cpp and the tail cut built on it.

module Tokens {
  import opened Utf8
  import opened Options

  // Session-level correction factor of the estimate; 1.0 is the plain ruler.
  type Factor = c: real | c >= 0.0

  // ASCII characters and other code points are charged differently.
  datatype Units = Units(ascii: nat, wide: nat) {
    function Plus(u: Units): Units {
      Units(ascii + u.ascii, wide + u.wide)
    }

    function Tokens(): nat {
      ascii / 4 + wide * 3 / 2
    }
  }

  function UnitOf(b: Byte): Units {
    Units(if b < 0x80 then 1 else 0, if b < 0x80 || Continuation(b) then 0 else 1)
  }

  function Ascii(s: Text, k: nat): nat
    requires k <= |s|
  {
    if k == 0 then 0 else Ascii(s, k - 1) + UnitOf(s[k - 1]).ascii
  }

  function Wide(s: Text, k: nat): nat
    requires k <= |s|
  {
    if k == 0 then 0 else Wide(s, k - 1) + UnitOf(s[k - 1]).wide
  }

  // The characters of s[..k].
  function CountTo(s: Text, k: nat): Units
    requires k <= |s|
  {
    Units(Ascii(s, k), Wide(s, k))
  }

  function Count(s: Text): Units {
    CountTo(s, |s|)
  }

  lemma {:induction false} CountAgrees(s: Text, t: Text, k: nat)
    requires k <= |s| && k <= |t| && forall m :: 0 <= m < k ==> s[m] == t[m]
    ensures CountTo(s, k) == CountTo(t, k)
  {
    if k > 0 {
      CountAgrees(s, t, k - 1);
    }
  }

  lemma {:induction false} CountConcatTo(a: Text, b: Text, j: nat)
    requires j <= |b|
    ensures CountTo(a + b, |a| + j) == Count(a).Plus(CountTo(b, j))
  {
    if j == 0 {
      CountAgrees(a + b, a, |a|);
    } else {
      CountConcatTo(a, b, j - 1);
    }
  }

  lemma CountConcat(a: Text, b: Text)
    ensures Count(a + b) == Count(a).Plus(Count(b))
  {
    CountConcatTo(a, b, |b|);
  }

  // Four ASCII characters are a token, and two others are three; what is left over is not counted.
  lemma TokensMean(u: Units)
    ensures exists four: nat, half: nat :: u.Tokens() == four + half && Charged(u, four, half)
  {
    assert Charged(u, u.ascii / 4, u.wide * 3 / 2);
  }

  ghost predicate Charged(u: Units, four: nat, half: nat) {
    four * 4 <= u.ascii < four * 4 + 4 && half * 2 <= u.wide * 3 < half * 2 + 2
  }

  predicate IsAscii(b: Byte) {
    b < 0x80
  }

  predicate OpensWide(b: Byte) {
    b >= 0xC0
  }

  function ManyBytes(p: Byte -> bool, s: Text, k: nat): nat
    requires k <= |s|
  {
    if k == 0 then 0 else ManyBytes(p, s, k - 1) + if p(s[k - 1]) then 1 else 0
  }

  // The characters counted are the bytes below 0x80, and the bytes that open a longer form.
  lemma {:induction false} CountsMean(s: Text, k: nat)
    requires k <= |s|
    ensures CountTo(s, k) == Units(ManyBytes(IsAscii, s, k), ManyBytes(OpensWide, s, k))
  {
    if k > 0 {
      CountsMean(s, k - 1);
    }
  }

  lemma {:induction false} CountPrefix(s: Text, i: nat, j: nat)
    requires i <= j <= |s|
    ensures CountTo(s, i).ascii <= CountTo(s, j).ascii && CountTo(s, i).wide <= CountTo(s, j).wide
    decreases j
  {
    if i < j {
      CountPrefix(s, i, j - 1);
    }
  }

  // Rounded to nearest; zero stays zero, and nothing else is rounded down to it.
  function Calibrated(tokens: nat, factor: Factor): nat {
    if tokens == 0 || factor == 1.0 then tokens
    else
      Scaled(tokens, factor);
      var rounded := (tokens as real * factor + 0.5).Floor;
      if rounded == 0 then 1 else rounded
  }

  lemma Scaled(tokens: nat, factor: Factor)
    ensures tokens as real * factor >= 0.0
  {
  }

  // The estimate is the nearest number of tokens, halves up, but not zero for something.
  lemma CalibratedIsNearest(tokens: nat, factor: Factor)
    ensures
      var scaled, estimate := tokens as real * factor, Calibrated(tokens, factor);
      if tokens == 0 then estimate == 0
      else if scaled < 0.5 then estimate == 1
      else estimate as real - 0.5 <= scaled < estimate as real + 0.5
  {
  }

  lemma CalibratedMonotone(a: nat, b: nat, factor: Factor)
    requires a <= b
    ensures Calibrated(a, factor) <= Calibrated(b, factor)
  {
    assert a as real * factor <= b as real * factor;
  }

  // Estimating two parts apart never loses more than one token to rounding.
  lemma CalibratedSplit(a: nat, b: nat, factor: Factor)
    ensures Calibrated(a + b, factor) <= Calibrated(a, factor) + Calibrated(b, factor) + 1
  {
    if a > 0 && b > 0 && factor != 1.0 {
      var x, y := a as real * factor, b as real * factor;
      assert (a + b) as real * factor == x + y;
      Scaled(a, factor);
      Scaled(b, factor);
    }
  }

  function Estimate(text: Text, factor: Factor): nat {
    Calibrated(Count(text).Tokens(), factor)
  }

  method EstimateUtf8Tokens(text: Text, factor: Factor) returns (tokens: nat)
    ensures tokens == Estimate(text, factor)
  {
    var ascii, codepoints := 0, 0;
    for i := 0 to |text|
      invariant 0 <= ascii <= codepoints
      invariant CountTo(text, i) == Units(ascii, codepoints - ascii)
    {
      if !Continuation(text[i]) {
        codepoints := codepoints + 1;
      }
      if text[i] < 0x80 {
        ascii := ascii + 1;
      }
    }
    var nonAscii := if codepoints >= ascii then codepoints - ascii else 0;
    tokens := Calibrated(ascii / 4 + nonAscii * 3 / 2, factor);
  }

  // ---- Longest prefix within a budget -------------------------------------------------------

  // What a number of tokens costs once calibrated. The scan only needs that more tokens never cost less.
  type Cost = nat -> nat

  function CostAt(factor: Factor): Cost {
    (tokens: nat) => Calibrated(tokens, factor)
  }

  ghost predicate Monotone(cost: Cost) {
    forall a: nat, b: nat | a <= b :: cost(a) <= cost(b)
  }

  lemma CostAtIsMonotone(factor: Factor)
    ensures Monotone(CostAt(factor))
  {
    forall a: nat, b: nat | a <= b ensures CostAt(factor)(a) <= CostAt(factor)(b) {
      CalibratedMonotone(a, b, factor);
    }
  }

  // Does text[..k], together with `seed` characters that will be appended, stay in budget?
  predicate Fits(text: Text, k: nat, seed: Units, budget: nat, cost: Cost)
    requires k <= |text|
  {
    cost(seed.Plus(CountTo(text, k)).Tokens()) <= budget
  }

  function Scan(text: Text, i: nat, taken: Units, budget: nat, cost: Cost): (k: nat)
    requires i <= |text|
    ensures i <= k <= |text|
    decreases |text| - i
  {
    if i == |text| then i
    else if Continuation(text[i]) then Scan(text, i + 1, taken, budget, cost)
    else
      var next := taken.Plus(UnitOf(text[i]));
      if cost(next.Tokens()) > budget then i
      else Scan(text, i + 1, next, budget, cost)
  }

  method Utf8PrefixBytesWithinTokens(text: Text, budget: nat, factor: Factor, seed: Units)
    returns (bytes: nat)
    ensures bytes == Scan(text, 0, seed, budget, CostAt(factor))
  {
    var ascii, nonAscii := seed.ascii, seed.wide;
    bytes := 0;
    var i := 0;
    while i < |text|
      invariant bytes == i <= |text|
      invariant Scan(text, 0, seed, budget, CostAt(factor))
        == Scan(text, i, Units(ascii, nonAscii), budget, CostAt(factor))
    {
      var byte := text[i];
      if Continuation(byte) {
        bytes := bytes + 1;
      } else {
        var asciiIfTaken := ascii + if byte < 0x80 then 1 else 0;
        var nonAsciiIfTaken := nonAscii + if byte < 0x80 then 0 else 1;
        assert Units(asciiIfTaken, nonAsciiIfTaken) == Units(ascii, nonAscii).Plus(UnitOf(byte));
        if Calibrated(asciiIfTaken / 4 + nonAsciiIfTaken * 3 / 2, factor) > budget {
          break;
        }
        ascii, nonAscii := asciiIfTaken, nonAsciiIfTaken;
        bytes := bytes + 1;
      }
      i := i + 1;
    }
  }

  lemma CountNext(text: Text, i: nat, seed: Units)
    requires i < |text|
    ensures seed.Plus(CountTo(text, i + 1)) == seed.Plus(CountTo(text, i)).Plus(UnitOf(text[i]))
  {
  }

  lemma TokensGrow(text: Text, i: nat, j: nat, seed: Units)
    requires i <= j <= |text|
    ensures seed.Plus(CountTo(text, i)).Tokens() <= seed.Plus(CountTo(text, j)).Tokens()
  {
    CountPrefix(text, i, j);
  }

  // What does not fit does not fit with more text either.
  lemma StaysTooLong(text: Text, i: nat, j: nat, seed: Units, budget: nat, cost: Cost)
    requires i <= j <= |text| && Monotone(cost) && !Fits(text, i, seed, budget, cost)
    ensures !Fits(text, j, seed, budget, cost)
  {
    TokensGrow(text, i, j, seed);
  }

  lemma {:induction false} ScanStopsLate(text: Text, i: nat, seed: Units, budget: nat, cost: Cost)
    requires i <= |text| && Monotone(cost)
    ensures
      var k := Scan(text, i, seed.Plus(CountTo(text, i)), budget, cost);
      && Aligned(text, k)
      && forall j | k < j <= |text| && Aligned(text, j) :: !Fits(text, j, seed, budget, cost)
    decreases |text| - i
  {
    if i < |text| {
      CountNext(text, i, seed);
      if Continuation(text[i]) || Fits(text, i + 1, seed, budget, cost) {
        ScanStopsLate(text, i + 1, seed, budget, cost);
      } else {
        forall j | i < j <= |text| ensures !Fits(text, j, seed, budget, cost) {
          StaysTooLong(text, i + 1, j, seed, budget, cost);
        }
      }
    }
  }

  ghost predicate Stray(text: Text, i: nat, k: nat)
    requires k <= |text|
  {
    forall m | i <= m < k :: Continuation(text[m])
  }

  lemma {:induction false} StrayBytesAreFree(text: Text, i: nat, k: nat)
    requires i <= k <= |text| && Stray(text, i, k)
    ensures CountTo(text, k) == CountTo(text, i)
    decreases k
  {
    if i < k {
      StrayBytesAreFree(text, i, k - 1);
    }
  }

  lemma StrayFits(text: Text, i: nat, k: nat, seed: Units, budget: nat, cost: Cost)
    requires i <= k <= |text| && Stray(text, i, k) && Fits(text, i, seed, budget, cost)
    ensures Fits(text, k, seed, budget, cost)
  {
    StrayBytesAreFree(text, i, k);
  }

  // One step of the scan, in terms of the characters counted so far.
  lemma ScanNext(text: Text, i: nat, seed: Units, budget: nat, cost: Cost)
    requires i < |text|
    ensures
      var taken, next := seed.Plus(CountTo(text, i)), seed.Plus(CountTo(text, i + 1));
      Scan(text, i, taken, budget, cost) ==
      if Continuation(text[i]) || Fits(text, i + 1, seed, budget, cost) then Scan(text, i + 1, next, budget, cost)
      else i
  {
    CountNext(text, i, seed);
  }

  lemma {:induction false} ScanStopsInBudget(text: Text, i: nat, k: nat, seed: Units, budget: nat, cost: Cost)
    requires i <= |text| && k == Scan(text, i, seed.Plus(CountTo(text, i)), budget, cost)
    ensures Fits(text, k, seed, budget, cost) || Stray(text, i, k)
    decreases |text| - i
  {
    if i < |text| {
      ScanNext(text, i, seed, budget, cost);
      if Continuation(text[i]) {
        ScanStopsInBudget(text, i + 1, k, seed, budget, cost);
      } else if Fits(text, i + 1, seed, budget, cost) {
        ScanStopsInBudget(text, i + 1, k, seed, budget, cost);
        if Stray(text, i + 1, k) {
          StrayFits(text, i + 1, k, seed, budget, cost);
        }
      }
    }
  }

  // The scan ends at the longest code-point-aligned prefix that stays in budget together with the
  // seed, whatever the factor; when none does it takes nothing but stray continuation bytes.
  lemma ScanIsLongest(text: Text, seed: Units, budget: nat, factor: Factor)
    ensures
      var k := Scan(text, 0, seed, budget, CostAt(factor));
      && Aligned(text, k)
      && (Fits(text, k, seed, budget, CostAt(factor)) || Stray(text, 0, k))
      && forall j | k < j <= |text| && Aligned(text, j) :: !Fits(text, j, seed, budget, CostAt(factor))
  {
    assert seed.Plus(CountTo(text, 0)) == seed;
    CostAtIsMonotone(factor);
    ScanStopsLate(text, 0, seed, budget, CostAt(factor));
    ScanStopsInBudget(text, 0, Scan(text, 0, seed, budget, CostAt(factor)), seed, budget, CostAt(factor));
  }

  // ---- Cutting a text down to a budget ------------------------------------------------------

  const MIN_KEEP_BYTES := 1024

  // The bytes kept in front of the mark.
  function Kept(text: Text, mark: Text, budget: nat, factor: Factor): nat {
    var keep := Scan(text, 0, Count(mark), budget, CostAt(factor));
    PrefixBoundary(text, if keep < MIN_KEEP_BYTES then MIN_KEEP_BYTES else keep)
  }

  // The cut text, or None when there is nothing to cut.
  function Truncation(text: Text, mark: Text, budget: nat, factor: Factor): (r: Option<Text>)
    ensures r.Some? ==> |r.value| < |text|
  {
    if |text| <= MIN_KEEP_BYTES + |mark| then None else
      var keep := Kept(text, mark, budget, factor);
      if keep + |mark| >= |text| then None
      else Some(text[..keep] + mark)
  }

  method TruncateTextToTokenBudget(text: Text, mark: Text, budget: nat, factor: Factor)
    returns (result: Text, reduced: bool)
    ensures reduced == Truncation(text, mark, budget, factor).Some?
    ensures result == if reduced then Truncation(text, mark, budget, factor).value else text
  {
    if |text| <= MIN_KEEP_BYTES + |mark| {
      return text, false;
    }
    var markAscii, markNonAscii := 0, 0;
    for i := 0 to |mark|
      invariant markAscii >= 0 && markNonAscii >= 0
      invariant CountTo(mark, i) == Units(markAscii, markNonAscii)
    {
      var byte := mark[i];
      if !Continuation(byte) {
        if byte < 0x80 {
          markAscii := markAscii + 1;
        } else {
          markNonAscii := markNonAscii + 1;
        }
      }
    }
    var keep := Utf8PrefixBytesWithinTokens(text, budget, factor, Units(markAscii, markNonAscii));
    if keep < MIN_KEEP_BYTES {
      keep := MIN_KEEP_BYTES;
    }
    keep := PrefixBoundary(text, keep);
    if keep + |mark| >= |text| {
      return text, false;
    }
    return text[..keep] + mark, true;
  }

  lemma StrayCostsNothing(text: Text, k: nat, mark: Text, factor: Factor)
    requires k <= |text| && Stray(text, 0, k)
    ensures Estimate(text[..k] + mark, factor) == Estimate(mark, factor)
  {
    StrayBytesAreFree(text, 0, k);
    CountConcat(text[..k], mark);
    CountAgrees(text[..k], text, k);
  }

  // A cut above the minimum-keep floor fits its budget, mark included, unless all it keeps are stray
  // continuation bytes and not even the mark fits; and no cut further right that keeps the code points
  // whole would have.
  lemma TruncationFits(text: Text, mark: Text, budget: nat, factor: Factor)
    requires Truncation(text, mark, budget, factor).Some?
    ensures
      var keep := Kept(text, mark, budget, factor);
      && keep < |text| && Truncation(text, mark, budget, factor).value == text[..keep] + mark
      && (keep > MIN_KEEP_BYTES ==>
            (Estimate(text[..keep] + mark, factor) <= budget <==>
             !Stray(text, 0, keep) || Estimate(mark, factor) <= budget))
      && forall j | keep < j <= |text| && Aligned(text, j) :: Estimate(text[..j] + mark, factor) > budget
  {
    var keep := Kept(text, mark, budget, factor);
    var seed := Count(mark);
    var scan := Scan(text, 0, seed, budget, CostAt(factor));
    ScanIsLongest(text, seed, budget, factor);
    forall j | 0 <= j <= |text|
      ensures Count(text[..j] + mark) == seed.Plus(CountTo(text, j))
    {
      CountConcat(text[..j], mark);
      CountAgrees(text[..j], text, j);
    }
    if scan >= MIN_KEEP_BYTES {
      PrefixBoundaryKeepsAligned(text, scan);
    }
    if keep > MIN_KEEP_BYTES && Stray(text, 0, keep) {
      StrayCostsNothing(text, keep, mark, factor);
    }
  }

  // A prefix after which the mark would save nothing, and which need not be cut.
  ghost predicate Spares(text: Text, mark: Text, budget: nat, factor: Factor, j: nat) {
    && j <= |text| && Aligned(text, j) && j + |mark| >= |text|
    && (Estimate(text[..j] + mark, factor) <= budget || Stray(text, 0, j))
  }

  lemma SparesIff(text: Text, mark: Text, budget: nat, factor: Factor, j: nat)
    ensures Spares(text, mark, budget, factor, j) <==>
      && j <= |text| && Aligned(text, j) && j + |mark| >= |text|
      && (Fits(text, j, Count(mark), budget, CostAt(factor)) || Stray(text, 0, j))
  {
    if j <= |text| {
      CountConcat(text[..j], mark);
      CountAgrees(text[..j], text, j);
    }
  }

  lemma LongScanIsKept(text: Text, mark: Text, budget: nat, factor: Factor)
    ensures
      var scan, keep := Scan(text, 0, Count(mark), budget, CostAt(factor)), Kept(text, mark, budget, factor);
      if scan >= MIN_KEEP_BYTES then keep == scan else keep <= MIN_KEEP_BYTES
  {
    ScanIsLongest(text, Count(mark), budget, factor);
    PrefixBoundaryKeepsAligned(text, Scan(text, 0, Count(mark), budget, CostAt(factor)));
  }

  // A text is cut if and only if it is longer than floor and mark, and no prefix that leaves less than
  // the mark behind is in budget together with it.
  lemma TruncationIff(text: Text, mark: Text, budget: nat, factor: Factor)
    ensures Truncation(text, mark, budget, factor).Some?
       <==> |text| > MIN_KEEP_BYTES + |mark| && forall j :: !Spares(text, mark, budget, factor, j)
  {
    if |text| > MIN_KEEP_BYTES + |mark| {
      var keep := Kept(text, mark, budget, factor);
      LongScanIsKept(text, mark, budget, factor);
      if keep + |mark| >= |text| {
        ScanIsLongest(text, Count(mark), budget, factor);
        SparesIff(text, mark, budget, factor, keep);
        assert Spares(text, mark, budget, factor, keep);
      } else {
        forall j ensures !Spares(text, mark, budget, factor, j) {
          SparesIff(text, mark, budget, factor, j);
          if Spares(text, mark, budget, factor, j) {
            SpareIsScanned(text, j, Count(mark), budget, factor);
          }
        }
      }
    }
  }

  // The scan goes past stray bytes.
  lemma SpareIsScanned(text: Text, j: nat, seed: Units, budget: nat, factor: Factor)
    requires j <= |text| && Aligned(text, j) && (Fits(text, j, seed, budget, CostAt(factor)) || Stray(text, 0, j))
    ensures j <= Scan(text, 0, seed, budget, CostAt(factor))
  {
    ScanIsLongest(text, seed, budget, factor);
    if Stray(text, 0, j) {
      StrayIsScanned(text, 0, j, seed, budget, CostAt(factor));
    }
  }

  lemma {:induction false} StrayIsScanned(text: Text, i: nat, j: nat, taken: Units, budget: nat, cost: Cost)
    requires i <= j <= |text| && Stray(text, i, j)
    ensures j <= Scan(text, i, taken, budget, cost)
    decreases j - i
  {
    if i < j {
      StrayIsScanned(text, i + 1, j, taken, budget, cost);
    }
  }

  // Truncation never leaves half a code point behind.
  lemma TruncationStaysValid(text: Text, mark: Text, budget: nat, factor: Factor)
    requires Valid(text) && Valid(mark) && Truncation(text, mark, budget, factor).Some?
    ensures Valid(Truncation(text, mark, budget, factor).value)
  {
    var keep := Kept(text, mark, budget, factor);
    if keep == 0 {
      ValidStart(text);
    }
    ValidCut(text, keep);
    ValidConcat(text[..keep], mark);
  }
}
