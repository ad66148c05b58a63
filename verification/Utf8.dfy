// Byte-level text and the UTF-8 form of RFC 3629.

module Utf8 {

  type Byte = b: int | 0 <= b < 256

  type Text = seq<Byte>

  // A continuation byte 10xxxxxx: every byte of a multi-byte form but its first.
  predicate Continuation(b: Byte) {
    0x80 <= b < 0xC0
  }

  // No code point is split when a text is cut at `k`.
  predicate Aligned(s: Text, k: nat)
    requires k <= |s|
  {
    k == |s| || !Continuation(s[k])
  }

  predicate Follows(s: Text, n: nat) {
    n <= |s| && forall k :: 1 <= k < n ==> Continuation(s[k])
  }

  // Length of the well-formed byte sequence that `s` starts with, 0 when there is none
  // (the ABNF in section 4 of RFC 3629).
  function FormLength(s: Text): (n: nat)
    requires s != []
    ensures n <= |s|
    ensures n > 0 ==> !Continuation(s[0]) && Follows(s, n)
  {
    var b := s[0];
    if b < 0x80 then 1
    else if 0xC2 <= b <= 0xDF && Follows(s, 2) then 2
    else if 0xE0 <= b <= 0xEF && Follows(s, 3)
            && (b == 0xE0 ==> s[1] >= 0xA0) && (b == 0xED ==> s[1] <= 0x9F) then 3
    else if 0xF0 <= b <= 0xF4 && Follows(s, 4)
            && (b == 0xF0 ==> s[1] >= 0x90) && (b == 0xF4 ==> s[1] <= 0x8F) then 4
    else 0
  }

  predicate Valid(s: Text) {
    s == [] || (FormLength(s) > 0 && Valid(s[FormLength(s)..]))
  }

  lemma {:induction false} ValidConcat(a: Text, b: Text)
    requires Valid(a) && Valid(b)
    ensures Valid(a + b)
  {
    if a == [] {
      assert a + b == b;
    } else {
      var n := FormLength(a);
      ValidConcat(a[n..], b);
      assert (a + b)[..n] == a[..n];
      assert (a + b)[n..] == a[n..] + b;
      assert FormLength(a + b) == n;
    }
  }

  // Cutting well-formed UTF-8 at an aligned offset leaves two well-formed texts.
  lemma {:induction false} ValidCut(s: Text, k: nat)
    requires Valid(s) && k <= |s| && Aligned(s, k)
    ensures Valid(s[..k]) && Valid(s[k..])
  {
    if k == 0 {
      assert s[k..] == s;
    } else {
      var n := FormLength(s);
      assert n <= k;
      assert s[n..][k - n..] == s[k..] && s[n..][..k - n] == s[..k][n..];
      ValidCut(s[n..], k - n);
      assert FormLength(s[..k]) == n;
    }
  }

  lemma ValidStart(s: Text)
    requires Valid(s) && s != []
    ensures !Continuation(s[0])
  {
  }

  // Utf8PrefixBoundary: retreat from a continuation byte to the start of its form.
  function PrefixBoundary(s: Text, offset: nat): (k: nat)
    ensures k <= |s| && k <= offset
    ensures k == 0 || Aligned(s, k)
    ensures forall j :: k < j <= offset && j < |s| ==> Continuation(s[j])
    decreases offset
  {
    if offset >= |s| then |s|
    else if offset > 0 && Continuation(s[offset]) then PrefixBoundary(s, offset - 1)
    else offset
  }

  // Utf8SuffixBoundary: advance past continuation bytes to the next form.
  function SuffixBoundary(s: Text, offset: nat): (k: nat)
    ensures k <= |s| && Aligned(s, k)
    decreases |s| - offset
  {
    if offset >= |s| then |s|
    else if Continuation(s[offset]) then SuffixBoundary(s, offset + 1)
    else offset
  }

  lemma {:induction false} PrefixBoundaryKeepsAligned(s: Text, k: nat)
    requires k <= |s| && Aligned(s, k)
    ensures PrefixBoundary(s, k) == k
  {
  }

  // The encoder of section 3 of RFC 3629, one Unicode scalar value at a time.
  function EncodeChar(c: char): (t: Text)
    ensures t != [] && FormLength(t) == |t|
  {
    var n := c as int;
    if n < 0x80 then [n]
    else if n < 0x800 then [0xC0 + n / 0x40, 0x80 + n % 0x40]
    else if n < 0x10000 then [0xE0 + n / 0x1000, 0x80 + n / 0x40 % 0x40, 0x80 + n % 0x40]
    else [0xF0 + n / 0x40000, 0x80 + n / 0x1000 % 0x40, 0x80 + n / 0x40 % 0x40, 0x80 + n % 0x40]
  }

  function Encode(s: string): (t: Text)
    ensures Valid(t)
  {
    if s == [] then [] else
      var t := EncodeChar(s[0]) + Encode(s[1..]);
      assert Valid(EncodeChar(s[0])) by { assert EncodeChar(s[0])[|EncodeChar(s[0])|..] == []; }
      ValidConcat(EncodeChar(s[0]), Encode(s[1..]));
      t
  }

  function Decimal(n: nat): string {
    var digit := [('0' as int + n % 10) as char];
    if n < 10 then digit else Decimal(n / 10) + digit
  }
}
