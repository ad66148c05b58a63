// Context replay of scripts/validate_trajectory_v3.py. The replay appends to the very list it found in
// a log entry, so a later check of that entry sees everything appended to it since.

module ContextChain {
  import opened Options

  datatype Node = Node(ref: string, prev: Option<string>)

  // ---- validate_chain_nodes -----------------------------------------------------------------

  // Each node names its predecessor, the first names none.
  ghost predicate Linked(chain: seq<Node>) {
    && chain != []
    && chain[0].prev.None?
    && (forall i | 0 < i < |chain| :: chain[i].prev == Some(chain[i - 1].ref))
  }

  ghost predicate DistinctRefs(chain: seq<Node>) {
    forall i, j | 0 <= i < j < |chain| :: chain[i].ref != chain[j].ref
  }

  // A simple path from a root.
  ghost predicate IsPath(chain: seq<Node>) {
    Linked(chain) && DistinctRefs(chain)
  }

  method ValidateChainNodes(chain: seq<Node>) returns (ok: bool)
    ensures ok <==> IsPath(chain)
  {
    if chain == [] {
      return false;
    }
    var refs: set<string> := {};
    for i := 0 to |chain|
      invariant forall r :: r in refs <==> exists k :: 0 <= k < i && chain[k].ref == r
      invariant forall k, l | 0 <= k < l < i :: chain[k].ref != chain[l].ref
    {
      if chain[i].ref in refs {
        return false;
      }
      refs := refs + {chain[i].ref};
    }
    if chain[0].prev.Some? {
      return false;
    }
    var roots := 0;
    for i := 0 to |chain|
      invariant forall k | 0 < k < i :: chain[k].prev == Some(chain[k - 1].ref)
      invariant roots == if i == 0 then 0 else 1
    {
      if i > 0 && chain[i].prev != Some(chain[i - 1].ref) {
        return false;
      }
      if chain[i].prev.None? {
        roots := roots + 1;
      }
    }
    // Linked nodes have exactly one root, so a test of the number of roots cannot fail any more.
    assert roots == 1;
    return true;
  }

  lemma PathPrefix(chain: seq<Node>, n: nat)
    requires IsPath(chain) && 0 < n <= |chain|
    ensures IsPath(chain[..n])
  {
  }

  // ---- Replay -------------------------------------------------------------------------------

  // Entries that replace the context, entries that extend it, and the rest. A compaction without an
  // id is not looked at again.
  datatype Opener = Start | Started | System | Reduced | Compacted(identified: bool)

  datatype Entry = Opens(opener: Opener, chain: seq<Node>) | Extends(nodes: seq<Node>) | Other

  // One list of the log, with what has been appended to it.
  datatype Segment = Segment(opener: Opener, nodes: seq<Node>)

  datatype Replay = Replay(segments: seq<Segment>, problems: nat)

  predicate Links(chain: seq<Node>, node: Node) {
    chain != [] && node.prev == Some(chain[|chain| - 1].ref)
  }

  // Append nodes while each links to the tail.
  function AppendLinked(chain: seq<Node>, nodes: seq<Node>, n: nat): (out: (seq<Node>, bool))
    requires n <= |nodes|
    ensures chain <= out.0
    ensures out.1 ==> |out.0| == |chain| + n
  {
    if n == 0 then (chain, true)
    else
      var before := AppendLinked(chain, nodes, n - 1);
      if !before.1 then before
      else if Links(before.0, nodes[n - 1]) then (before.0 + [nodes[n - 1]], true)
      else (before.0, false)
  }

  ghost function Next(r: Replay, e: Entry): Replay
    requires r.segments != []
  {
    match e
    case Other => r
    case Opens(opener, chain) =>
      Replay(r.segments + [Segment(opener, chain)], r.problems + if opener.Reduced? && !IsPath(chain) then 1 else 0)
    case Extends(nodes) =>
      var last := |r.segments| - 1;
      var out := AppendLinked(r.segments[last].nodes, nodes, |nodes|);
      Replay(r.segments[last := r.segments[last].(nodes := out.0)], r.problems + if out.1 then 0 else 1)
  }

  ghost function ReplayTo(log: seq<Entry>, n: nat): (r: Replay)
    requires n <= |log|
    ensures r.segments != []
  {
    if n == 0 then Replay([Segment(Start, [])], 0) else Next(ReplayTo(log, n - 1), log[n - 1])
  }

  // The context after `n` entries.
  ghost function Context(log: seq<Entry>, n: nat): seq<Node>
    requires n <= |log|
  {
    var segments := ReplayTo(log, n).segments;
    segments[|segments| - 1].nodes
  }

  // Is this list checked once more at the end?
  predicate Checked(segments: seq<Segment>, k: nat)
    requires k < |segments|
  {
    k == |segments| - 1 || segments[k].opener == Compacted(true)
  }

  // Nothing to report: no problem during the replay, the final context is a path, and so is every
  // identified compaction as it now stands.
  ghost predicate Clean(log: seq<Entry>) {
    var r := ReplayTo(log, |log|);
    || log == []
    || (&& r.problems == 0
        && forall k | 0 <= k < |r.segments| && Checked(r.segments, k) :: IsPath(r.segments[k].nodes))
  }

  // One problem for each identified compaction, among the first `n` lists, that is no path.
  ghost function CompactionProblems(segments: seq<Segment>, n: nat): nat
    requires n <= |segments|
  {
    if n == 0 then 0
    else
      var broken := segments[n - 1].opener == Compacted(true) && !IsPath(segments[n - 1].nodes);
      CompactionProblems(segments, n - 1) + if broken then 1 else 0
  }

  // The problems of a replay, of the final context and of the identified compactions.
  ghost function Problems(log: seq<Entry>): nat {
    if log == [] then 0
    else
      var r := ReplayTo(log, |log|);
      r.problems + (if IsPath(Context(log, |log|)) then 0 else 1) + CompactionProblems(r.segments, |r.segments|)
  }

  lemma {:induction false} NoCompactionProblems(segments: seq<Segment>, n: nat)
    requires n <= |segments|
    ensures CompactionProblems(segments, n) == 0
       <==> forall k | 0 <= k < n && segments[k].opener == Compacted(true) :: IsPath(segments[k].nodes)
  {
    if n > 0 {
      NoCompactionProblems(segments, n - 1);
    }
  }

  lemma CleanIff(log: seq<Entry>)
    ensures Problems(log) == 0 <==> Clean(log)
  {
    var segments := ReplayTo(log, |log|).segments;
    NoCompactionProblems(segments, |segments|);
    if Clean(log) && log != [] {
      assert Checked(segments, |segments| - 1);
      forall k | 0 <= k < |segments| && segments[k].opener == Compacted(true) ensures IsPath(segments[k].nodes) {
        assert Checked(segments, k);
      }
    }
  }

  method ReplayContext(log: seq<Entry>) returns (problems: nat)
    ensures problems == Problems(log)
    ensures problems == 0 <==> Clean(log)
  {
    CleanIff(log);
    var segments := [Segment(Start, [])];
    problems := 0;
    for i := 0 to |log|
      invariant segments != []
      invariant Replay(segments, problems) == ReplayTo(log, i)
    {
      match log[i] {
        case Other =>
        case Opens(opener, chain) =>
          segments := segments + [Segment(opener, chain)];
          if opener.Reduced? {
            var ok := ValidateChainNodes(chain);
            if !ok {
              problems := problems + 1;
            }
          }
        case Extends(nodes) =>
          var last := |segments| - 1;
          var chain := segments[last].nodes;
          var linked := true;
          var j := 0;
          while j < |nodes| && linked
            invariant j <= |nodes|
            invariant (chain, linked) == AppendLinked(segments[last].nodes, nodes, j)
          {
            if Links(chain, nodes[j]) {
              chain := chain + [nodes[j]];
            } else {
              linked := false;
            }
            j := j + 1;
          }
          if !linked {
            BrokenStays(segments[last].nodes, nodes, j, |nodes|);
            problems := problems + 1;
          }
          segments := segments[last := segments[last].(nodes := chain)];
      }
    }
    if log == [] {
      return;
    }
    var ok := ValidateChainNodes(segments[|segments| - 1].nodes);
    if !ok {
      problems := problems + 1;
    }
    ghost var before := problems;
    for k := 0 to |segments|
      invariant problems == before + CompactionProblems(segments, k)
    {
      if segments[k].opener == Compacted(true) {
        ok := ValidateChainNodes(segments[k].nodes);
        if !ok {
          problems := problems + 1;
        }
      }
    }
  }

  lemma {:induction false} BrokenStays(chain: seq<Node>, nodes: seq<Node>, k: nat, n: nat)
    requires k <= n <= |nodes| && !AppendLinked(chain, nodes, k).1
    ensures AppendLinked(chain, nodes, n) == AppendLinked(chain, nodes, k)
    decreases n
  {
    if k < n {
      BrokenStays(chain, nodes, k, n - 1);
    }
  }

  // ---- What a clean log means ---------------------------------------------------------------

  // A list only ever grows at its end, and only while it is the current one.
  lemma {:induction false} SegmentsGrow(log: seq<Entry>, i: nat, n: nat)
    requires i <= n <= |log|
    ensures
      var early, late := ReplayTo(log, i).segments, ReplayTo(log, n).segments;
      && |early| <= |late|
      && forall k | 0 <= k < |early| ::
           && early[k].opener == late[k].opener && early[k].nodes <= late[k].nodes
           && (k < |early| - 1 ==> early[k] == late[k])
    decreases n
  {
    if i < n {
      SegmentsGrow(log, i, n - 1);
    }
  }

  // The list that the last opener among the first `n` entries brought.
  function Opened(log: seq<Entry>, n: nat): seq<Node>
    requires n <= |log|
  {
    if n == 0 then []
    else match log[n - 1]
         case Opens(_, chain) => chain
         case Extends(_) => Opened(log, n - 1)
         case Other => Opened(log, n - 1)
  }

  // What has been appended since.
  function Appended(log: seq<Entry>, n: nat): seq<Node>
    requires n <= |log|
  {
    if n == 0 then []
    else match log[n - 1]
         case Opens(_, _) => []
         case Extends(nodes) => Appended(log, n - 1) + nodes
         case Other => Appended(log, n - 1)
  }

  lemma {:induction false} AllAppended(chain: seq<Node>, nodes: seq<Node>, n: nat)
    requires n <= |nodes| && AppendLinked(chain, nodes, n).1
    ensures AppendLinked(chain, nodes, n).0 == chain + nodes[..n]
  {
    if n > 0 {
      AllAppended(chain, nodes, n - 1);
      assert nodes[..n] == nodes[..n - 1] + [nodes[n - 1]];
    }
  }

  // A replay without a problem drops nothing.
  lemma {:induction false} ContextIsOpenedAndAppended(log: seq<Entry>, n: nat)
    requires n <= |log| && ReplayTo(log, n).problems == 0
    ensures Context(log, n) == Opened(log, n) + Appended(log, n)
  {
    if n > 0 {
      ContextIsOpenedAndAppended(log, n - 1);
      match log[n - 1]
      case Opens(_, _) =>
      case Extends(nodes) =>
        AllAppended(Context(log, n - 1), nodes, |nodes|);
        assert nodes[..|nodes|] == nodes;
      case Other =>
    }
  }

  lemma {:induction false} AppendsKeepLinks(chain: seq<Node>, nodes: seq<Node>, n: nat)
    requires n <= |nodes| && AppendLinked(chain, nodes, n).1
    ensures Linked(AppendLinked(chain, nodes, n).0) <==> Linked(chain)
  {
    if n > 0 {
      AppendsKeepLinks(chain, nodes, n - 1);
      var before, after := AppendLinked(chain, nodes, n - 1).0, AppendLinked(chain, nodes, n).0;
      assert Links(before, nodes[n - 1]) && after == before + [nodes[n - 1]];
      if Linked(after) {
        assert forall i | 0 <= i < |before| :: before[i] == after[i];
      }
    }
  }

  lemma {:induction false} ProblemsStay(log: seq<Entry>, i: nat, n: nat)
    requires i <= n <= |log|
    ensures ReplayTo(log, i).problems <= ReplayTo(log, n).problems
    decreases n
  {
    if i < n {
      ProblemsStay(log, i, n - 1);
    }
  }

  // ---- What the problems are ----------------------------------------------------------------

  // Every node names the one before it, the first one the last of the chain.
  ghost predicate ContinuesChain(chain: seq<Node>, nodes: seq<Node>) {
    nodes != [] ==>
      && chain != [] && nodes[0].prev == Some(chain[|chain| - 1].ref)
      && forall k | 0 < k < |nodes| :: nodes[k].prev == Some(nodes[k - 1].ref)
  }

  lemma {:induction false} AppendsIff(chain: seq<Node>, nodes: seq<Node>, n: nat)
    requires n <= |nodes|
    ensures AppendLinked(chain, nodes, n).1 <==> ContinuesChain(chain, nodes[..n])
  {
    if n > 0 {
      AppendsIff(chain, nodes, n - 1);
      if AppendLinked(chain, nodes, n - 1).1 {
        AllAppended(chain, nodes, n - 1);
        var before := chain + nodes[..n - 1];
        assert n > 1 ==> before[|before| - 1] == nodes[n - 2];
        assert forall k | 0 < k < n :: nodes[..n][k] == nodes[k];
      } else {
        assert forall k | 0 <= k < n - 1 :: nodes[..n - 1][k] == nodes[..n][k];
      }
    }
  }

  // An entry that is a problem of its own: a reduction to no path, or nodes that do not continue the context.
  ghost predicate Faulty(log: seq<Entry>, i: int) {
    && 0 <= i < |log|
    && match log[i]
       case Opens(opener, chain) => opener == Reduced && !IsPath(chain)
       case Extends(nodes) => !ContinuesChain(Context(log, i), nodes)
       case Other => false
  }

  ghost function Faults(log: seq<Entry>, n: nat): set<int> {
    set i | 0 <= i < n && Faulty(log, i)
  }

  lemma NextFault(log: seq<Entry>, n: nat)
    requires n < |log|
    ensures ReplayTo(log, n + 1).problems == ReplayTo(log, n).problems + if Faulty(log, n) then 1 else 0
  {
    if log[n].Extends? {
      var nodes := log[n].nodes;
      AppendsIff(Context(log, n), nodes, |nodes|);
      assert nodes[..|nodes|] == nodes;
    }
  }

  lemma NextFaults(log: seq<Entry>, n: nat)
    requires n < |log|
    ensures |Faults(log, n + 1)| == |Faults(log, n)| + if Faulty(log, n) then 1 else 0
  {
    assert Faults(log, n + 1) == Faults(log, n) + if Faulty(log, n) then {n} else {};
  }

  lemma {:induction false} ReplayCountsFaults(log: seq<Entry>, n: nat)
    requires n <= |log|
    ensures ReplayTo(log, n).problems == |Faults(log, n)|
  {
    if n > 0 {
      ReplayCountsFaults(log, n - 1);
      NextFault(log, n - 1);
      NextFaults(log, n - 1);
    }
  }

  ghost function BrokenCompactions(segments: seq<Segment>, n: nat): set<int> {
    set k | 0 <= k < n && k < |segments| && segments[k].opener == Compacted(true) && !IsPath(segments[k].nodes)
  }

  lemma {:induction false} CompactionsCount(segments: seq<Segment>, n: nat)
    requires n <= |segments|
    ensures CompactionProblems(segments, n) == |BrokenCompactions(segments, n)|
  {
    if n > 0 {
      CompactionsCount(segments, n - 1);
      var broken := segments[n - 1].opener == Compacted(true) && !IsPath(segments[n - 1].nodes);
      assert BrokenCompactions(segments, n) == BrokenCompactions(segments, n - 1) + if broken then {n - 1} else {};
    }
  }

  // One problem for each faulty entry, one for a last context that is no path, and one for each identified
  // compaction that, with what has been appended to it, is none.
  lemma ProblemsAreFaults(log: seq<Entry>)
    requires log != []
    ensures
      var segments := ReplayTo(log, |log|).segments;
      Problems(log) ==
      |Faults(log, |log|)| + |BrokenCompactions(segments, |segments|)| + if IsPath(Context(log, |log|)) then 0 else 1
  {
    ReplayCountsFaults(log, |log|);
    CompactionsCount(ReplayTo(log, |log|).segments, |ReplayTo(log, |log|).segments|);
  }

  // A reduction is checked when it opens its list, and when nothing has been appended yet.
  lemma ReductionsArePaths(log: seq<Entry>, i: nat)
    requires Clean(log) && i < |log| && log[i].Opens? && log[i].opener.Reduced?
    ensures IsPath(log[i].chain)
  {
    ProblemsStay(log, i, |log|);
    ProblemsStay(log, i + 1, |log|);
  }

  lemma {:induction false} ContextIsLinkedIff(log: seq<Entry>, n: nat)
    requires n <= |log| && ReplayTo(log, n).problems == 0
    ensures Linked(Context(log, n)) <==> Linked(Opened(log, n))
  {
    if n > 0 {
      ContextIsLinkedIff(log, n - 1);
      match log[n - 1]
      case Opens(_, _) =>
      case Extends(nodes) => AppendsKeepLinks(Context(log, n - 1), nodes, |nodes|);
      case Other =>
    }
  }

  // At any moment of a clean log the context is a path if and only if the list last brought in was
  // linked and no message stands twice among its nodes and those appended since. Appends are checked
  // for their links, and for nothing else.
  lemma ContextIsPathIff(log: seq<Entry>, n: nat)
    requires Clean(log) && log != [] && n <= |log|
    ensures Context(log, n) == Opened(log, n) + Appended(log, n)
    ensures IsPath(Context(log, n)) <==> Linked(Opened(log, n)) && DistinctRefs(Opened(log, n) + Appended(log, n))
  {
    ProblemsStay(log, n, |log|);
    ContextIsLinkedIff(log, n);
    ContextIsOpenedAndAppended(log, n);
  }

  // A checked list is a path at every moment at which it is the context: the last one is, and so is
  // every identified compaction.
  lemma ContextsArePaths(log: seq<Entry>, n: nat)
    requires Clean(log) && log != [] && n <= |log|
    requires
      var k := |ReplayTo(log, n).segments| - 1;
      k < |ReplayTo(log, |log|).segments| && Checked(ReplayTo(log, |log|).segments, k)
    ensures Context(log, n) == [] || IsPath(Context(log, n))
    ensures Context(log, |log|) != []
  {
    SegmentsGrow(log, n, |log|);
    var k := |ReplayTo(log, n).segments| - 1;
    var whole := ReplayTo(log, |log|).segments[k].nodes;
    assert IsPath(whole);
    if Context(log, n) != [] {
      PathPrefix(whole, |Context(log, n)|);
      assert whole[..|Context(log, n)|] == Context(log, n);
    }
    assert Checked(ReplayTo(log, |log|).segments, |ReplayTo(log, |log|).segments| - 1);
  }

  // Every list was the context once, as it now stands.
  lemma {:induction false} SegmentWasContext(log: seq<Entry>, n: nat, k: nat) returns (m: nat)
    requires n <= |log| && k < |ReplayTo(log, n).segments|
    ensures m <= n && |ReplayTo(log, m).segments| == k + 1
    ensures Context(log, m) == ReplayTo(log, n).segments[k].nodes
  {
    if k == |ReplayTo(log, n).segments| - 1 {
      m := n;
    } else {
      m := SegmentWasContext(log, n - 1, k);
    }
  }

  // From the first opener on, all contexts of a clean log are paths if and only if all its lists, as
  // they stand at the end, are.
  lemma AllContextsArePathsIff(log: seq<Entry>)
    requires Clean(log) && log != []
    ensures
      var segments := ReplayTo(log, |log|).segments;
      (forall n | 0 <= n <= |log| && |ReplayTo(log, n).segments| > 1 :: IsPath(Context(log, n)))
      <==> forall k | 0 < k < |segments| :: IsPath(segments[k].nodes)
  {
    var segments := ReplayTo(log, |log|).segments;
    if forall k | 0 < k < |segments| :: IsPath(segments[k].nodes) {
      forall n | 0 <= n <= |log| && |ReplayTo(log, n).segments| > 1 ensures IsPath(Context(log, n)) {
        PrefixOfPathIsPath(log, n);
      }
    }
    if forall n | 0 <= n <= |log| && |ReplayTo(log, n).segments| > 1 :: IsPath(Context(log, n)) {
      forall k | 0 < k < |segments| ensures IsPath(segments[k].nodes) {
        var m := SegmentWasContext(log, |log|, k);
        assert |ReplayTo(log, m).segments| > 1;
      }
    }
  }

  // Appends to an empty list are never linked, so a list that is a path in the end was never empty.
  lemma {:induction false} EmptyStays(log: seq<Entry>, i: nat, n: nat)
    requires i <= n <= |log| && ReplayTo(log, n).problems == 0
    ensures
      var early, late := ReplayTo(log, i).segments, ReplayTo(log, n).segments;
      |early| <= |late| && (early[|early| - 1].nodes == [] ==> late[|early| - 1].nodes == [])
    decreases n
  {
    if i < n {
      EmptyStays(log, i, n - 1);
      SegmentsGrow(log, i, n - 1);
      match log[n - 1]
      case Opens(_, _) =>
      case Extends(nodes) =>
        if Context(log, n - 1) == [] {
          AppendsToNothing([], nodes, |nodes|);
        }
      case Other =>
    }
  }

  lemma {:induction false} AppendsToNothing(chain: seq<Node>, nodes: seq<Node>, n: nat)
    requires n <= |nodes| && chain == []
    ensures AppendLinked(chain, nodes, n).0 == []
  {
    if n > 0 {
      AppendsToNothing(chain, nodes, n - 1);
    }
  }

  lemma PrefixOfPathIsPath(log: seq<Entry>, n: nat)
    requires Clean(log) && log != [] && n <= |log|
    requires
      var k := |ReplayTo(log, n).segments| - 1;
      k < |ReplayTo(log, |log|).segments| ==> IsPath(ReplayTo(log, |log|).segments[k].nodes)
    ensures IsPath(Context(log, n))
  {
    SegmentsGrow(log, n, |log|);
    EmptyStays(log, n, |log|);
    var whole := ReplayTo(log, |log|).segments[|ReplayTo(log, n).segments| - 1].nodes;
    PathPrefix(whole, |Context(log, n)|);
    assert whole[..|Context(log, n)|] == Context(log, n);
  }

  // The checks cannot be relied on for any other list, a reduction included: whatever opens it, a clean
  // log may pass through a context that names a message twice, as long as a compaction replaces it.
  lemma UncheckedContext(opener: Opener, a: string) returns (log: seq<Entry>)
    requires opener != Compacted(true)
    ensures |log| == 3 && log[0].Opens? && log[0].opener == opener && IsPath(log[0].chain)
    ensures Clean(log) && !IsPath(Context(log, 2))
  {
    var root, again := Node(a, None), Node(a, Some(a));
    log := [Opens(opener, [root]), Extends([again]), Opens(Compacted(true), [root])];
    var start, last := Segment(Start, []), Segment(Compacted(true), [root]);
    assert IsPath([root]);
    assert ReplayTo(log, 0) == Replay([start], 0);
    assert ReplayTo(log, 1) == Replay([start, Segment(opener, [root])], 0);
    assert AppendLinked([root], [again], 0) == ([root], true);
    assert [again][0] == again && Links([root], again) && [root] + [again] == [root, again];
    assert AppendLinked([root], [again], 1) == ([root, again], true);
    assert ReplayTo(log, 2) == Replay([start, Segment(opener, [root, again])], 0);
    assert ReplayTo(log, 3) == Replay([start, Segment(opener, [root, again]), last], 0);
    assert [root, again][0].ref == [root, again][1].ref && !DistinctRefs([root, again]);
  }
}
