// The range algebra of scripts/gen_unicode_tables.py.

module Intervals {
  import opened Collections

  // A closed range of code points.
  datatype Range = Range(lo: int, hi: int) {
    predicate Has(x: int) {
      lo <= x <= hi
    }
  }

  type Ranges = seq<Range>

  ghost predicate Covers(rs: Ranges, x: int) {
    exists r | r in rs :: r.Has(x)
  }

  ghost predicate Proper(rs: Ranges) {
    forall r | r in rs :: r.lo <= r.hi
  }

  ghost predicate SamePoints(a: Ranges, b: Ranges) {
    forall x :: Covers(a, x) <==> Covers(b, x)
  }

  ghost predicate Sorted(rs: Ranges) {
    forall i, j | 0 <= i < j < |rs| :: rs[i].lo <= rs[j].lo
  }

  // Sorted, non-empty, and with a gap between any two neighbours.
  ghost predicate Canonical(rs: Ranges) {
    Proper(rs) && forall i, j | 0 <= i < j < |rs| :: rs[i].hi + 1 < rs[j].lo
  }

  // ---- sorted() -----------------------------------------------------------------------------

  predicate Before(a: Range, b: Range) {
    a.lo < b.lo || (a.lo == b.lo && a.hi <= b.hi)
  }

  function Insert(r: Range, rs: Ranges): (out: Ranges)
    ensures |out| == |rs| + 1
  {
    if rs == [] then [r]
    else if Before(r, rs[0]) then [r] + rs
    else [rs[0]] + Insert(r, rs[1..])
  }

  function Sort(rs: Ranges): (out: Ranges)
    ensures |out| == |rs|
  {
    if rs == [] then [] else Insert(rs[0], Sort(rs[1..]))
  }

  lemma {:induction false} InsertElements(r: Range, rs: Ranges, s: Range)
    ensures s in Insert(r, rs) <==> s == r || s in rs
  {
    if rs != [] && !Before(r, rs[0]) {
      InsertElements(r, rs[1..], s);
      assert s in rs <==> s == rs[0] || s in rs[1..];
    }
  }

  lemma {:induction false} InsertSorted(r: Range, rs: Ranges)
    requires Sorted(rs)
    ensures Sorted(Insert(r, rs))
  {
    if rs != [] && !Before(r, rs[0]) {
      InsertSorted(r, rs[1..]);
      var rest := Insert(r, rs[1..]);
      forall i | 0 <= i < |rest| ensures rs[0].lo <= rest[i].lo {
        InsertElements(r, rs[1..], rest[i]);
        assert rest[i] in rest;
      }
    }
  }

  lemma {:induction false} SortSorts(rs: Ranges, s: Range)
    ensures Sorted(Sort(rs)) && (s in Sort(rs) <==> s in rs)
  {
    if rs != [] {
      SortSorts(rs[1..], s);
      InsertSorted(rs[0], Sort(rs[1..]));
      InsertElements(rs[0], Sort(rs[1..]), s);
    }
  }

  lemma SortKeepsPoints(rs: Ranges)
    ensures Sorted(Sort(rs)) && (forall r :: r in Sort(rs) <==> r in rs)
    ensures SamePoints(Sort(rs), rs) && (Proper(Sort(rs)) <==> Proper(rs))
  {
    SortSorts(rs, Range(0, 0));
    forall r ensures r in Sort(rs) <==> r in rs {
      SortSorts(rs, r);
    }
  }

  // ---- merge --------------------------------------------------------------------------------

  // Join the next range to the last one when they overlap or touch.
  function Join(merged: Ranges, r: Range): Ranges {
    var last := |merged| - 1;
    if merged != [] && r.lo <= merged[last].hi + 1 then
      merged[last := Range(merged[last].lo, if merged[last].hi >= r.hi then merged[last].hi else r.hi)]
    else merged + [r]
  }

  function JoinAll(sorted: Ranges, n: nat): Ranges
    requires n <= |sorted|
  {
    if n == 0 then [] else Join(JoinAll(sorted, n - 1), sorted[n - 1])
  }

  function Merge(rs: Ranges): Ranges {
    var sorted := Sort(rs);
    JoinAll(sorted, |sorted|)
  }

  method MergeRanges(ranges: Ranges) returns (merged: Ranges)
    ensures merged == Merge(ranges)
  {
    merged := [];
    var sorted := Sort(ranges);
    for i := 0 to |sorted|
      invariant merged == JoinAll(sorted, i)
    {
      var lo, hi := sorted[i].lo, sorted[i].hi;
      var last := |merged| - 1;
      if merged != [] && lo <= merged[last].hi + 1 {
        merged := merged[last := Range(merged[last].lo, if merged[last].hi >= hi then merged[last].hi else hi)];
      } else {
        merged := merged + [Range(lo, hi)];
      }
    }
  }

  lemma JoinPoints(merged: Ranges, r: Range, x: int)
    requires r.lo <= r.hi && Proper(merged) && (merged != [] ==> merged[|merged| - 1].lo <= r.lo)
    ensures Covers(Join(merged, r), x) <==> Covers(merged, x) || r.Has(x)
  {
    var last, out := |merged| - 1, Join(merged, r);
    if merged != [] && r.lo <= merged[last].hi + 1 {
      if Covers(merged, x) {
        var i :| 0 <= i < |merged| && merged[i].Has(x);
        assert out[i] in out && out[i].Has(x);
      }
      if r.Has(x) {
        assert out[last] in out && merged[last] in merged;
        assert out[last].Has(x);
      }
      if Covers(out, x) {
        var i :| 0 <= i < |out| && out[i].Has(x);
        assert merged[i] in merged;
      }
    } else {
      if Covers(merged, x) {
        var s :| s in merged && s.Has(x);
        assert s in out;
      }
      assert r in out;
    }
  }

  lemma {:induction false} JoinAllMeans(sorted: Ranges, n: nat)
    requires n <= |sorted| && Sorted(sorted) && Proper(sorted)
    ensures Canonical(JoinAll(sorted, n))
    ensures forall x :: Covers(JoinAll(sorted, n), x) <==> Covers(sorted[..n], x)
    ensures n > 0 ==> var merged := JoinAll(sorted, n); merged != [] && merged[|merged| - 1].lo <= sorted[n - 1].lo
  {
    if n > 0 {
      JoinAllMeans(sorted, n - 1);
      var before, r := JoinAll(sorted, n - 1), sorted[n - 1];
      assert r in sorted && sorted[..n] == sorted[..n - 1] + [r];
      assert n > 1 ==> sorted[n - 2].lo <= r.lo;
      assert before != [] ==> before[|before| - 1] in before;
      forall x ensures Covers(Join(before, r), x) <==> Covers(sorted[..n], x) {
        JoinPoints(before, r, x);
      }
    }
  }

  // The merged list is canonical and covers the same code points.
  lemma MergeMeans(rs: Ranges)
    requires Proper(rs)
    ensures Canonical(Merge(rs)) && SamePoints(Merge(rs), rs)
  {
    var sorted := Sort(rs);
    SortKeepsPoints(rs);
    JoinAllMeans(sorted, |sorted|);
    assert sorted[..|sorted|] == sorted;
  }

  lemma CanonicalTail(rs: Ranges)
    requires Canonical(rs) && rs != []
    ensures Canonical(rs[1..])
    ensures forall x :: Covers(rs[1..], x) <==> Covers(rs, x) && x > rs[0].hi
    ensures forall x :: Covers(rs, x) ==> x >= rs[0].lo
    ensures !Covers(rs, rs[0].hi + 1) && (forall x | rs[0].lo <= x <= rs[0].hi :: Covers(rs, x))
  {
    assert rs[0] in rs;
    forall x ensures Covers(rs[1..], x) <==> Covers(rs, x) && x > rs[0].hi {
      if Covers(rs, x) {
        var i :| 0 <= i < |rs| && rs[i].Has(x);
        assert i > 0 ==> rs[i] == rs[1..][i - 1] && rs[i] in rs[1..];
      }
      if Covers(rs[1..], x) {
        var i :| 0 <= i < |rs[1..]| && rs[1..][i].Has(x);
        assert rs[i + 1] in rs;
      }
    }
    forall x | Covers(rs, x) ensures x >= rs[0].lo && x != rs[0].hi + 1 {
      var i :| 0 <= i < |rs| && rs[i].Has(x);
    }
  }

  // There is only one canonical list for a set of code points.
  lemma {:induction false} CanonicalIsUnique(a: Ranges, b: Ranges)
    requires Canonical(a) && Canonical(b) && SamePoints(a, b)
    ensures a == b
  {
    if a != [] {
      assert a[0] in a && a[0].Has(a[0].lo);
      assert Covers(b, a[0].lo);
      CanonicalTail(a);
    }
    if b != [] {
      assert b[0] in b && b[0].Has(b[0].lo);
      assert Covers(a, b[0].lo);
      CanonicalTail(b);
    }
    if a != [] && b != [] {
      assert a[0].lo == b[0].lo;
      assert a[0].hi == b[0].hi by {
        assert !Covers(b, a[0].hi + 1) && !Covers(a, b[0].hi + 1);
      }
      CanonicalIsUnique(a[1..], b[1..]);
      assert a == [a[0]] + a[1..] && b == [b[0]] + b[1..];
    }
  }

  // Two lists merge to the same table exactly when they cover the same code points.
  lemma MergeDecidesPoints(a: Ranges, b: Ranges)
    requires Proper(a) && Proper(b)
    ensures Merge(a) == Merge(b) <==> SamePoints(a, b)
  {
    MergeMeans(a);
    MergeMeans(b);
    if SamePoints(a, b) {
      CanonicalIsUnique(Merge(a), Merge(b));
    }
    if Merge(a) == Merge(b) {
      forall x ensures Covers(a, x) <==> Covers(b, x) {
        assert Covers(Merge(a), x) <==> Covers(a, x);
        assert Covers(Merge(b), x) <==> Covers(b, x);
      }
    }
  }

  // ---- subtract -----------------------------------------------------------------------------

  // What is left of one range after the first `n` ranges of `minus`: the pieces cut off, and where the
  // rest begins.
  datatype Carved = Carved(out: Ranges, cur: int)

  function Carve(r: Range, minus: Ranges, n: nat): Carved
    requires n <= |minus|
  {
    if n == 0 then Carved([], r.lo)
    else
      var c, m := Carve(r, minus, n - 1), minus[n - 1];
      if m.hi < c.cur || m.lo > r.hi then c
      else
        Carved(if m.lo > c.cur then c.out + [Range(c.cur, m.lo - 1)] else c.out,
               if c.cur >= m.hi + 1 then c.cur else m.hi + 1)
  }

  function Left(r: Range, minus: Ranges): Ranges {
    var c := Carve(r, minus, |minus|);
    if c.cur <= r.hi then c.out + [Range(c.cur, r.hi)] else c.out
  }

  // What is left of each range, in order.
  function Pieces(ranges: Ranges, minus: Ranges): (pieces: seq<Ranges>)
    ensures |pieces| == |ranges|
  {
    seq(|ranges|, i requires 0 <= i < |ranges| => Left(ranges[i], minus))
  }

  function Subtract(ranges: Ranges, minus: Ranges): Ranges {
    var pieces := Pieces(Sort(ranges), minus);
    Merge(Flat(pieces, |pieces|))
  }

  method SubtractRanges(ranges: Ranges, minus: Ranges) returns (rest: Ranges)
    ensures rest == Subtract(ranges, minus)
  {
    var out: Ranges := [];
    var sorted := Sort(ranges);
    ghost var pieces := Pieces(sorted, minus);
    for i := 0 to |sorted|
      invariant out == Flat(pieces, i)
    {
      var lo, hi := sorted[i].lo, sorted[i].hi;
      ghost var before := out;
      var cur := lo;
      for j := 0 to |minus|
        invariant out == before + Carve(sorted[i], minus, j).out && cur == Carve(sorted[i], minus, j).cur
      {
        var mlo, mhi := minus[j].lo, minus[j].hi;
        if mhi < cur || mlo > hi {
          continue;
        }
        if mlo > cur {
          out := out + [Range(cur, mlo - 1)];
        }
        cur := if cur >= mhi + 1 then cur else mhi + 1;
      }
      if cur <= hi {
        out := out + [Range(cur, hi)];
      }
    }
    rest := MergeRanges(out);
  }

  // The first of the first `n` ranges that ends at or after x and starts at or before `top`.
  function Hit(minus: Ranges, n: nat, x: int, top: int): (k: nat)
    requires n <= |minus|
    ensures k <= n
    ensures forall i | 0 <= i < k :: minus[i].hi < x || minus[i].lo > top
    ensures k < n ==> minus[k].hi >= x && minus[k].lo <= top
  {
    if n == 0 then 0
    else
      var k := Hit(minus, n - 1, x, top);
      if k < n - 1 then k else if minus[n - 1].hi < x || minus[n - 1].lo > top then n else n - 1
  }

  // What becomes of one point: it is dropped when its first hit starts at or before it.
  lemma {:induction false} CarvePoint(r: Range, minus: Ranges, n: nat, x: int)
    requires n <= |minus| && Proper(minus) && r.Has(x)
    ensures
      var c, k := Carve(r, minus, n), Hit(minus, n, x, r.hi);
      if k == n then c.cur <= x && !Covers(c.out, x)
      else c.cur > x && (Covers(c.out, x) <==> minus[k].lo > x)
  {
    if n > 0 {
      CarvePoint(r, minus, n - 1, x);
      var c, m := Carve(r, minus, n - 1), minus[n - 1];
      assert m in minus;
      var out := Carve(r, minus, n).out;
      if out != c.out {
        var piece := Range(c.cur, m.lo - 1);
        assert piece in out;
        if Covers(c.out, x) {
          var s :| s in c.out && s.Has(x);
          assert s in out;
        }
        assert Covers(out, x) <==> Covers(c.out, x) || piece.Has(x);
      }
    }
  }

  lemma {:induction false} CarveInside(r: Range, minus: Ranges, n: nat)
    requires n <= |minus| && Proper(minus)
    ensures
      var c := Carve(r, minus, n);
      c.cur >= r.lo && Proper(c.out) && forall s | s in c.out :: r.lo <= s.lo && s.hi <= r.hi
  {
    if n > 0 {
      CarveInside(r, minus, n - 1);
    }
  }

  lemma LeftProper(r: Range, minus: Ranges)
    requires Proper(minus)
    ensures Proper(Left(r, minus))
  {
    CarveInside(r, minus, |minus|);
  }

  // A range may be listed after one that starts further right only where its points left of that start
  // were listed before.
  ghost predicate Orderly(minus: Ranges) {
    forall x, i, j | 0 <= i < j < |minus| && minus[j].Has(x) && x < minus[i].lo :: Covers(minus[..i], x)
  }

  lemma LeftPoints(r: Range, minus: Ranges, x: int)
    requires Proper(minus)
    ensures
      var k := Hit(minus, |minus|, x, r.hi);
      Covers(Left(r, minus), x) <==> r.Has(x) && (k == |minus| || minus[k].lo > x)
  {
    var c := Carve(r, minus, |minus|);
    CarveInside(r, minus, |minus|);
    if r.Has(x) {
      CarvePoint(r, minus, |minus|, x);
    }
    if c.cur <= r.hi {
      var rest := Range(c.cur, r.hi);
      assert rest in Left(r, minus);
      if Covers(c.out, x) {
        var s :| s in c.out && s.Has(x);
        assert s in Left(r, minus);
      }
      assert Covers(Left(r, minus), x) <==> Covers(c.out, x) || rest.Has(x);
    }
  }

  lemma PrefixCovers(rs: Ranges, n: nat, x: int)
    requires n <= |rs|
    ensures Covers(rs[..n], x) <==> exists i | 0 <= i < n :: rs[i].Has(x)
  {
    if i :| 0 <= i < n && rs[i].Has(x) {
      assert rs[..n][i] in rs[..n];
    }
    if Covers(rs[..n], x) {
      var i :| 0 <= i < n && rs[..n][i].Has(x);
      assert rs[i].Has(x);
    }
  }

  lemma OrderlyHits(minus: Ranges, x: int, top: int)
    requires Proper(minus) && Orderly(minus) && x <= top
    ensures
      var k := Hit(minus, |minus|, x, top);
      Covers(minus, x) <==> k < |minus| && minus[k].lo <= x
  {
    var k := Hit(minus, |minus|, x, top);
    if Covers(minus, x) {
      var j :| 0 <= j < |minus| && minus[j].Has(x);
      assert k <= j;
      PrefixCovers(minus, k, x);
      assert minus[k].lo <= x;
    }
    if k < |minus| && minus[k].lo <= x {
      assert minus[k] in minus;
    }
  }

  lemma CoversConcat(a: Ranges, b: Ranges, x: int)
    ensures Covers(a + b, x) <==> Covers(a, x) || Covers(b, x)
  {
    if Covers(a, x) {
      var s :| s in a && s.Has(x);
      assert s in a + b;
    }
    if Covers(b, x) {
      var s :| s in b && s.Has(x);
      assert s in a + b;
    }
  }

  lemma {:induction false} FlatProper(pieces: seq<Ranges>, n: nat)
    requires n <= |pieces| && forall i | 0 <= i < |pieces| :: Proper(pieces[i])
    ensures Proper(Flat(pieces, n))
  {
    if n > 0 {
      FlatProper(pieces, n - 1);
    }
  }

  lemma {:induction false} FlatPoints(pieces: seq<Ranges>, n: nat, x: int)
    requires n <= |pieces|
    ensures Covers(Flat(pieces, n), x) <==> exists i | 0 <= i < n :: Covers(pieces[i], x)
  {
    if n > 0 {
      FlatPoints(pieces, n - 1, x);
      CoversConcat(Flat(pieces, n - 1), pieces[n - 1], x);
    }
  }

  lemma SubtractPoints(ranges: Ranges, minus: Ranges, x: int)
    requires Proper(ranges) && Proper(minus)
    ensures Canonical(Subtract(ranges, minus))
    ensures Covers(Subtract(ranges, minus), x) <==> exists r | r in ranges :: Covers(Left(r, minus), x)
  {
    var sorted := Sort(ranges);
    var pieces := Pieces(sorted, minus);
    SortKeepsPoints(ranges);
    FlatPoints(pieces, |pieces|, x);
    forall i | 0 <= i < |pieces| ensures Proper(pieces[i]) {
      LeftProper(sorted[i], minus);
    }
    FlatProper(pieces, |pieces|);
    MergeMeans(Flat(pieces, |pieces|));
    if i :| 0 <= i < |pieces| && Covers(pieces[i], x) {
      assert sorted[i] in ranges;
    }
    if r :| r in ranges && Covers(Left(r, minus), x) {
      var i :| 0 <= i < |sorted| && sorted[i] == r;
      assert Covers(pieces[i], x);
    }
  }

  ghost predicate Exact(ranges: Ranges, minus: Ranges) {
    forall x :: Covers(Subtract(ranges, minus), x) <==> Covers(ranges, x) && !Covers(minus, x)
  }

  lemma ExactAt(ranges: Ranges, minus: Ranges, x: int)
    requires Proper(ranges) && Proper(minus) && Orderly(minus)
    ensures Covers(Subtract(ranges, minus), x) <==> Covers(ranges, x) && !Covers(minus, x)
  {
    SubtractPoints(ranges, minus, x);
    forall r | r in ranges ensures Covers(Left(r, minus), x) <==> r.Has(x) && !Covers(minus, x) {
      LeftPoints(r, minus, x);
      if r.Has(x) {
        OrderlyHits(minus, x, r.hi);
      }
    }
  }

  // Subtracting an orderly list leaves exactly the set difference, as a canonical list.
  lemma SubtractIsDifference(ranges: Ranges, minus: Ranges)
    requires Proper(ranges) && Proper(minus) && Orderly(minus)
    ensures Canonical(Subtract(ranges, minus)) && Exact(ranges, minus)
  {
    SubtractPoints(ranges, minus, 0);
    forall x ensures Covers(Subtract(ranges, minus), x) <==> Covers(ranges, x) && !Covers(minus, x) {
      ExactAt(ranges, minus, x);
    }
  }

  // Order matters: a list that is not orderly leaves a code point behind that it should have removed
  // from some range. So subtracting a list is right for every argument exactly when it is orderly.
  lemma DisorderShows(minus: Ranges, x: int, i: nat, j: nat)
    requires Proper(minus) && i < j < |minus| && minus[j].Has(x) && x < minus[i].lo && !Covers(minus[..i], x)
    ensures !Exact([Range(x, minus[i].lo)], minus)
  {
    var r := Range(x, minus[i].lo);
    SubtractPoints([r], minus, x);
    LeftPoints(r, minus, x);
    var k := Hit(minus, |minus|, x, r.hi);
    assert minus[i] in minus && minus[j] in minus;
    assert k <= i;
    PrefixCovers(minus, i, x);
    assert k < i ==> minus[k].lo > x;
    assert r in [r] && Covers(minus, x);
    assert Covers(Subtract([r], minus), x);
  }

  // Such a list: the point after the other one is taken first.
  lemma DisorderedTable()
    ensures !Orderly([Range(5, 5), Range(1, 1)]) && !Exact([Range(1, 5)], [Range(5, 5), Range(1, 1)])
  {
    var minus := [Range(5, 5), Range(1, 1)];
    assert minus[1].Has(1) && minus[..0] == [];
    DisorderShows(minus, 1, 0, 1);
  }

  lemma ExactIffOrderly(minus: Ranges)
    requires Proper(minus)
    ensures (forall ranges | Proper(ranges) :: Exact(ranges, minus)) <==> Orderly(minus)
  {
    if Orderly(minus) {
      forall ranges | Proper(ranges) ensures Exact(ranges, minus) {
        SubtractIsDifference(ranges, minus);
      }
    } else {
      var x, i, j :| 0 <= i < j < |minus| && minus[j].Has(x) && x < minus[i].lo && !Covers(minus[..i], x);
      DisorderShows(minus, x, i, j);
      assert Proper([Range(x, minus[i].lo)]);
    }
  }

  lemma SortedIsOrderly(rs: Ranges)
    requires Sorted(rs)
    ensures Orderly(rs)
  {
  }

  // ---- diff_tables --------------------------------------------------------------------------

  datatype Difference = OnlyOld(range: Range) | OnlyNew(range: Range)

  function Marked(rs: Ranges, n: nat, old': bool): (lines: seq<Difference>)
    requires n <= |rs|
    ensures |lines| == n
    ensures forall r :: OnlyOld(r) in lines <==> old' && r in rs[..n]
    ensures forall r :: OnlyNew(r) in lines <==> !old' && r in rs[..n]
  {
    if n == 0 then [] else Marked(rs, n - 1, old') + [if old' then OnlyOld(rs[n - 1]) else OnlyNew(rs[n - 1])]
  }

  method DiffTables(old': Ranges, new': Ranges) returns (lines: seq<Difference>)
    ensures
      var gone, added := Subtract(old', new'), Subtract(new', old');
      lines == Marked(gone, |gone|, true) + Marked(added, |added|, false)
    ensures forall r :: OnlyOld(r) in lines <==> r in Subtract(old', new')
    ensures forall r :: OnlyNew(r) in lines <==> r in Subtract(new', old')
    ensures Proper(old') && Proper(new') && Sorted(old') && Sorted(new') ==> (lines == [] <==> SamePoints(old', new'))
  {
    lines := [];
    var gone := SubtractRanges(old', new');
    for i := 0 to |gone|
      invariant lines == Marked(gone, i, true)
    {
      lines := lines + [OnlyOld(gone[i])];
    }
    var added := SubtractRanges(new', old');
    for i := 0 to |added|
      invariant lines == Marked(gone, |gone|, true) + Marked(added, i, false)
    {
      lines := lines + [OnlyNew(added[i])];
    }
    assert gone[..|gone|] == gone && added[..|added|] == added;
    if Proper(old') && Proper(new') && Sorted(old') && Sorted(new') {
      DiffIsEmptyIff(old', new');
    }
  }

  lemma NothingLeft(rs: Ranges)
    requires Proper(rs)
    ensures rs == [] <==> forall x :: !Covers(rs, x)
  {
    if rs != [] {
      assert rs[0] in rs && rs[0].Has(rs[0].lo);
      assert Covers(rs, rs[0].lo);
    }
  }

  // For sorted tables the difference report is empty exactly when both cover the same code points.
  lemma DiffIsEmptyIff(old': Ranges, new': Ranges)
    requires Proper(old') && Proper(new') && Sorted(old') && Sorted(new')
    ensures |Subtract(old', new')| + |Subtract(new', old')| == 0 <==> SamePoints(old', new')
  {
    SortedIsOrderly(old');
    SortedIsOrderly(new');
    SubtractIsDifference(old', new');
    SubtractIsDifference(new', old');
    NothingLeft(Subtract(old', new'));
    NothingLeft(Subtract(new', old'));
    forall x
      ensures (!Covers(Subtract(old', new'), x) && !Covers(Subtract(new', old'), x))
         <==> (Covers(old', x) <==> Covers(new', x))
    {
    }
  }
}
