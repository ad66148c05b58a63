// The hash chain of scripts/validate_trajectory_v3.py: strict checking and --rehash.

module Trajectory {
  import opened Options
  import Goals
  import ContextChain

  // A 64-digit digest, or whatever else a fixture holds in its place.
  datatype Digest = Hex64(n: nat) | Placeholder(text: string)

  const GENESIS := Hex64(0)

  // What a line is to the checks that span lines. `opening` is an event that opens a workflow ledger.
  datatype Fact = Goal(event: Goals.Event) | Context(entry: ContextChain.Entry) | Workflow(opening: bool) | Plain

  // A parsed line without its two hashes. `wellFormed` stands for the checks of its own fields, `rest`
  // is everything else in it.
  datatype Body = Body(seqNo: int, wellFormed: bool, fact: Fact, rest: string)

  datatype Line = Line(prevHash: Digest, lineHash: Digest, body: Body)

  // What the check depends on: the hash of a line, the canonical JSON form of a line, the JSON reader
  // (None: the text is not JSON), and the semantic checks other than goals and contexts.
  datatype Env = Env(
    sha: (Digest, Body) -> nat,
    canonical: Line -> string,
    parse: string -> Option<Line>,
    otherProblems: seq<Body> -> nat)

  function LineHash(prev: Digest, body: Body, env: Env): Digest {
    Hex64(env.sha(prev, body))
  }

  ghost predicate InjectiveHash(env: Env) {
    forall p: Digest, q: Digest, a: Body, b: Body | env.sha(p, a) == env.sha(q, b) :: p == q && a == b
  }

  function EventOf(fact: Fact): Goals.Event {
    if fact.Goal? then fact.event else Goals.Other
  }

  function EntryOf(fact: Fact): ContextChain.Entry {
    if fact.Context? then fact.entry else ContextChain.Other
  }

  // validate_line: placeholders pass in rehash mode only.
  predicate ValidLine(line: Line, expectSeq: int, rehash: bool) {
    && line.body.wellFormed && Goals.ValidEntry(EventOf(line.body.fact))
    && line.body.seqNo == expectSeq
    && (rehash || (line.prevHash.Hex64? && line.lineHash.Hex64?))
  }

  // ---- Lines of a text ----------------------------------------------------------------------

  // The characters str.splitlines breaks at.
  predicate IsBreak(c: char) {
    c as int in {0x0a, 0x0b, 0x0c, 0x0d, 0x1c, 0x1d, 0x1e, 0x85, 0x2028, 0x2029}
  }

  predicate IsSpace(c: char) {
    var n := c as int;
    || 9 <= n <= 13 || 0x1c <= n <= 0x20 || 0x2000 <= n <= 0x200a
    || n in {0x85, 0xa0, 0x1680, 0x2028, 0x2029, 0x202f, 0x205f, 0x3000}
  }

  predicate Blank(raw: string) {
    forall i | 0 <= i < |raw| :: IsSpace(raw[i])
  }

  function FirstBreak(t: string, i: nat): (k: nat)
    requires i <= |t|
    ensures i <= k <= |t|
    ensures forall j | i <= j < k :: !IsBreak(t[j])
    ensures k < |t| ==> IsBreak(t[k])
    decreases |t| - i
  {
    if i == |t| || IsBreak(t[i]) then i else FirstBreak(t, i + 1)
  }

  function SplitLines(t: string): seq<string> {
    if t == [] then []
    else
      var k := FirstBreak(t, 0);
      if k == |t| then [t] else [t[..k]] + SplitLines(t[k + 1..])
  }

  // ---- One pass over a file -----------------------------------------------------------------

  datatype Scan = Crashed | Scan(lines: seq<Line>, prev: Digest, ok: bool)

  function ScanLine(s: Scan, raw: string, rehash: bool, env: Env): Scan {
    if s.Crashed? || Blank(raw) then s
    else
      match env.parse(raw)
      case None => Crashed
      case Some(line) =>
        if !ValidLine(line, |s.lines| + 1, rehash) then s.(ok := false)
        else if rehash then
          var sealed := line.(prevHash := s.prev, lineHash := LineHash(s.prev, line.body, env));
          Scan(s.lines + [sealed], sealed.lineHash, s.ok)
        else
          Scan(s.lines + [line], line.lineHash,
               s.ok && line.prevHash == s.prev && line.lineHash == LineHash(s.prev, line.body, env))
  }

  function ScanAll(raws: seq<string>, n: nat, rehash: bool, env: Env): Scan
    requires n <= |raws|
  {
    if n == 0 then Scan([], GENESIS, true) else ScanLine(ScanAll(raws, n - 1, rehash, env), raws[n - 1], rehash, env)
  }

  function Bodies(lines: seq<Line>): seq<Body> {
    seq(|lines|, i requires 0 <= i < |lines| => lines[i].body)
  }

  function Events(lines: seq<Line>): seq<Goals.Event> {
    seq(|lines|, i requires 0 <= i < |lines| => EventOf(lines[i].body.fact))
  }

  function Entries(lines: seq<Line>): seq<ContextChain.Entry> {
    seq(|lines|, i requires 0 <= i < |lines| => EntryOf(lines[i].body.fact))
  }

  // A ledger of workflow events holds neither goals nor contexts.
  predicate IsWorkflow(lines: seq<Line>) {
    && lines != [] && lines[0].body.fact == Workflow(true)
    && forall i | 0 <= i < |lines| :: lines[i].body.fact.Workflow?
  }

  ghost function Problems(lines: seq<Line>, env: Env): nat {
    env.otherProblems(Bodies(lines))
    + if IsWorkflow(lines) then 0
      else ContextChain.Problems(Entries(lines)) + Goals.Replay(Events(lines), |lines|).problems
  }

  // The lines of a rewritten file, each ended by a newline.
  function Written(lines: seq<Line>, env: Env): string {
    if lines == [] then [] else env.canonical(lines[0]) + ['\n'] + Written(lines[1..], env)
  }

  // "\n".join(rewritten) + "\n" of no lines is a single newline.
  function FileText(lines: seq<Line>, env: Env): string {
    if lines == [] then ['\n'] else Written(lines, env)
  }

  // The verdict, and the text written back. A line that is not JSON ends the program.
  datatype Verdict = Crash | Verdict(ok: bool, lines: seq<Line>, written: Option<string>)

  ghost function Judge(text: string, rehash: bool, env: Env): Verdict {
    var raws := SplitLines(text);
    match ScanAll(raws, |raws|, rehash, env)
    case Crashed => Crash
    case Scan(lines, _, ok) =>
      var accepted := ok && Problems(lines, env) == 0;
      Verdict(accepted, lines, if accepted && rehash then Some(FileText(lines, env)) else None)
  }

  ghost predicate Accepted(text: string, env: Env) {
    var v := Judge(text, false, env);
    v.Verdict? && v.ok
  }

  method ValidateFile(text: string, rehash: bool, env: Env) returns (verdict: Verdict)
    ensures verdict == Judge(text, rehash, env)
  {
    var raws := SplitLines(text);
    var lines: seq<Line>, prev, ok := [], GENESIS, true;
    for i := 0 to |raws|
      invariant Scan(lines, prev, ok) == ScanAll(raws, i, rehash, env)
    {
      if Blank(raws[i]) {
        continue;
      }
      var parsed := env.parse(raws[i]);
      if parsed.None? {
        CrashStays(raws, i + 1, |raws|, rehash, env);
        return Crash;
      }
      var line := parsed.value;
      if !ValidLine(line, |lines| + 1, rehash) {
        ok := false;
        continue;
      }
      if line.prevHash != prev && !rehash {
        ok := false;
      }
      if rehash {
        line := line.(prevHash := prev);
        line := line.(lineHash := LineHash(prev, line.body, env));
      } else if line.lineHash != LineHash(prev, line.body, env) {
        ok := false;
      }
      prev := line.lineHash;
      lines := lines + [line];
    }
    if ok {
      var problems := env.otherProblems(Bodies(lines));
      if !IsWorkflow(lines) {
        var contextProblems := ContextChain.ReplayContext(Entries(lines));
        var goalProblems := Goals.ValidateGoals(Events(lines));
        problems := problems + contextProblems + goalProblems;
      }
      ok := problems == 0;
    }
    verdict := Verdict(ok, lines, if rehash && ok then Some(FileText(lines, env)) else None);
  }

  lemma {:induction false} CrashStays(raws: seq<string>, k: nat, n: nat, rehash: bool, env: Env)
    requires k <= n <= |raws| && ScanAll(raws, k, rehash, env).Crashed?
    ensures ScanAll(raws, n, rehash, env).Crashed?
    decreases n
  {
    if k < n {
      CrashStays(raws, k, n - 1, rehash, env);
    }
  }

  // ---- The chain ----------------------------------------------------------------------------

  function HashBefore(lines: seq<Line>, i: nat): Digest
    requires i <= |lines|
  {
    if i == 0 then GENESIS else lines[i - 1].lineHash
  }

  ghost predicate SealedAt(lines: seq<Line>, i: nat, env: Env)
    requires i < |lines|
  {
    && lines[i].body.wellFormed && lines[i].body.seqNo == i + 1
    && Revises(lines[i].body.fact)
    && lines[i].prevHash.Hex64? && lines[i].lineHash.Hex64?
    && lines[i].prevHash == HashBefore(lines, i)
    && lines[i].lineHash == LineHash(HashBefore(lines, i), lines[i].body, env)
  }

  // A goal entry leads from one revision to the next.
  ghost predicate Revises(fact: Fact) {
    fact.Goal? && fact.event.GoalApplied? ==> 0 <= fact.event.from && fact.event.to == fact.event.from + 1
  }

  // Numbered from 1 without a gap, every line sealed over its predecessor.
  ghost predicate Chain(lines: seq<Line>, env: Env) {
    forall i | 0 <= i < |lines| :: SealedAt(lines, i, env)
  }

  lemma ChainAppend(lines: seq<Line>, line: Line, env: Env)
    requires Chain(lines, env) && ValidLine(line, |lines| + 1, false)
    requires line.prevHash == HashBefore(lines, |lines|) && line.lineHash == LineHash(line.prevHash, line.body, env)
    ensures Chain(lines + [line], env) && HashBefore(lines + [line], |lines| + 1) == line.lineHash
  {
    var all := lines + [line];
    forall i | 0 <= i < |all| ensures SealedAt(all, i, env) {
      assert HashBefore(all, i) == HashBefore(lines, i);
      assert i < |lines| ==> SealedAt(lines, i, env);
    }
  }

  lemma {:induction false} ScanChains(raws: seq<string>, n: nat, rehash: bool, env: Env)
    requires n <= |raws|
    ensures
      var s := ScanAll(raws, n, rehash, env);
      s.Scan? && (s.ok || rehash) ==> Chain(s.lines, env) && s.prev == HashBefore(s.lines, |s.lines|) && s.prev.Hex64?
  {
    if n > 0 {
      ScanChains(raws, n - 1, rehash, env);
      var before, after := ScanAll(raws, n - 1, rehash, env), ScanAll(raws, n, rehash, env);
      if after.Scan? && (after.ok || rehash) && after != before && |after.lines| > |before.lines| {
        ChainAppend(before.lines, after.lines[|before.lines|], env);
      }
    }
  }

  // The lines that are not blank.
  function NonBlank(raws: seq<string>, n: nat): seq<string>
    requires n <= |raws|
  {
    if n == 0 then [] else NonBlank(raws, n - 1) + if Blank(raws[n - 1]) then [] else [raws[n - 1]]
  }

  ghost predicate Reads(raws: seq<string>, lines: seq<Line>, env: Env) {
    |lines| == |raws| && forall i | 0 <= i < |raws| :: env.parse(raws[i]) == Some(lines[i])
  }

  lemma {:induction false} ScanReads(raws: seq<string>, n: nat, env: Env)
    requires n <= |raws|
    ensures var s := ScanAll(raws, n, false, env); s.Scan? && s.ok ==> Reads(NonBlank(raws, n), s.lines, env)
  {
    if n > 0 {
      ScanReads(raws, n - 1, env);
    }
  }

  lemma ChainPrefix(lines: seq<Line>, line: Line, env: Env)
    requires Chain(lines + [line], env)
    ensures Chain(lines, env) && ValidLine(line, |lines| + 1, false)
    ensures line.prevHash == HashBefore(lines, |lines|) && line.lineHash == LineHash(line.prevHash, line.body, env)
  {
    var all := lines + [line];
    forall i | 0 <= i < |lines| ensures SealedAt(lines, i, env) {
      assert SealedAt(all, i, env) && HashBefore(all, i) == HashBefore(lines, i);
    }
    assert SealedAt(all, |lines|, env) && HashBefore(all, |lines|) == HashBefore(lines, |lines|);
  }

  lemma {:induction false} ChainIsScanned(raws: seq<string>, n: nat, lines: seq<Line>, env: Env)
    requires n <= |raws| && Reads(NonBlank(raws, n), lines, env) && Chain(lines, env)
    ensures ScanAll(raws, n, false, env) == Scan(lines, HashBefore(lines, |lines|), true)
  {
    if n > 0 {
      if Blank(raws[n - 1]) {
        ChainIsScanned(raws, n - 1, lines, env);
      } else {
        var k := |lines| - 1;
        assert lines == lines[..k] + [lines[k]];
        ChainPrefix(lines[..k], lines[k], env);
        assert NonBlank(raws, n)[k] == raws[n - 1];
        assert forall i | 0 <= i < k :: NonBlank(raws, n - 1)[i] == NonBlank(raws, n)[i];
        ChainIsScanned(raws, n - 1, lines[..k], env);
      }
    }
  }

  lemma {:induction false} NoGoalEntries(log: seq<Goals.Event>, n: nat)
    requires n <= |log| && forall i | 0 <= i < n :: log[i].Other?
    ensures Goals.Replay(log, n).problems == 0
  {
    if n > 0 {
      NoGoalEntries(log, n - 1);
    }
  }

  // Contexts are only looked at outside workflow ledgers.
  ghost predicate CleanContexts(lines: seq<Line>) {
    IsWorkflow(lines) || ContextChain.Clean(Entries(lines))
  }

  lemma ChainHasValidEntries(lines: seq<Line>, env: Env)
    requires Chain(lines, env)
    ensures Problems(lines, env) == 0
       <==> env.otherProblems(Bodies(lines)) == 0 && CleanContexts(lines) && Goals.WellRun(Events(lines), |lines|)
  {
    forall i | 0 <= i < |lines| ensures Goals.ValidEntry(Events(lines)[i]) {
      assert SealedAt(lines, i, env);
    }
    Goals.CleanIffWellRun(Events(lines), |lines|);
    ContextChain.CleanIff(Entries(lines));
    if IsWorkflow(lines) {
      NoGoalEntries(Events(lines), |lines|);
    }
  }

  // The strict check accepts a file if and only if its lines that are not blank are JSON and form a
  // chain whose contexts are clean, whose goals are well run and that has no other problem.
  lemma AcceptedIff(text: string, env: Env)
    ensures
      var raws := SplitLines(text);
      Accepted(text, env) <==>
      exists lines ::
        && Reads(NonBlank(raws, |raws|), lines, env) && Chain(lines, env)
        && env.otherProblems(Bodies(lines)) == 0 && CleanContexts(lines) && Goals.WellRun(Events(lines), |lines|)
  {
    var raws := SplitLines(text);
    if Accepted(text, env) {
      var lines := Judge(text, false, env).lines;
      ScanReads(raws, |raws|, env);
      ScanChains(raws, |raws|, false, env);
      ChainHasValidEntries(lines, env);
      assert Reads(NonBlank(raws, |raws|), lines, env);
    }
    if lines :| Reads(NonBlank(raws, |raws|), lines, env) && Chain(lines, env)
                && env.otherProblems(Bodies(lines)) == 0 && CleanContexts(lines)
                && Goals.WellRun(Events(lines), |lines|) {
      ChainIsScanned(raws, |raws|, lines, env);
      ChainHasValidEntries(lines, env);
    }
  }

  // An accepted file is a chain without a semantic problem: at every prefix at most one goal is
  // unfinished, and so on.
  lemma AcceptedMeans(text: string, env: Env)
    requires Accepted(text, env)
    ensures
      var lines := Judge(text, false, env).lines;
      Chain(lines, env) && CleanContexts(lines) && Goals.WellRun(Events(lines), |lines|)
  {
    var raws := SplitLines(text);
    ScanChains(raws, |raws|, false, env);
    ChainHasValidEntries(Judge(text, false, env).lines, env);
  }

  // In an accepted file other than a workflow ledger the last context is a path, and an earlier one is
  // if and only if it was opened with a linked list and holds no message twice.
  lemma AcceptedContexts(text: string, env: Env, n: nat)
    requires Accepted(text, env) && n <= |Judge(text, false, env).lines|
    requires Judge(text, false, env).lines != [] && !IsWorkflow(Judge(text, false, env).lines)
    ensures
      var log := Entries(Judge(text, false, env).lines);
      && ContextChain.IsPath(ContextChain.Context(log, |log|))
      && (ContextChain.IsPath(ContextChain.Context(log, n)) <==>
            && ContextChain.Linked(ContextChain.Opened(log, n))
            && ContextChain.DistinctRefs(ContextChain.Opened(log, n) + ContextChain.Appended(log, n)))
  {
    AcceptedMeans(text, env);
    var log := Entries(Judge(text, false, env).lines);
    ContextChain.ContextIsPathIff(log, n);
    ContextChain.ContextsArePaths(log, |log|);
  }

  // Equal hashes anywhere in two chains mean equal positions and equal histories up to there.
  lemma {:induction false} ChainsAgree(a: seq<Line>, b: seq<Line>, i: nat, j: nat, env: Env)
    requires Chain(a, env) && Chain(b, env) && InjectiveHash(env)
    requires i < |a| && j < |b| && a[i].lineHash == b[j].lineHash
    ensures i == j && a[..i + 1] == b[..j + 1]
    decreases i
  {
    assert SealedAt(a, i, env) && SealedAt(b, j, env);
    assert env.sha(HashBefore(a, i), a[i].body) == env.sha(HashBefore(b, j), b[j].body);
    assert i == j;
    if i > 0 {
      ChainsAgree(a, b, i - 1, j - 1, env);
      assert a[..i + 1] == a[..i] + [a[i]] && b[..j + 1] == b[..j] + [b[j]];
    }
  }

  // Two accepted files that end in the same line hash are equal line for line.
  lemma LastHashDecides(first: string, second: string, env: Env)
    requires Accepted(first, env) && Accepted(second, env) && InjectiveHash(env)
    requires
      var a, b := Judge(first, false, env).lines, Judge(second, false, env).lines;
      a != [] && b != [] && a[|a| - 1].lineHash == b[|b| - 1].lineHash
    ensures Judge(first, false, env).lines == Judge(second, false, env).lines
  {
    var a, b := Judge(first, false, env).lines, Judge(second, false, env).lines;
    AcceptedMeans(first, env);
    AcceptedMeans(second, env);
    ChainsAgree(a, b, |a| - 1, |b| - 1, env);
    assert a[..|a|] == a && b[..|b|] == b;
  }

  // ---- Rehash -------------------------------------------------------------------------------

  // The canonical form is a JSON object on its own: it is read back as the line it came from, it
  // starts with a brace, control characters are escaped, nothing shorter than it is JSON, and hashes
  // hold no line break.
  ghost predicate FaithfulJson(env: Env) {
    && (forall l: Line :: env.canonical(l) != [] && env.canonical(l)[0] == '{')
    && (forall l: Line, i: nat | i < |env.canonical(l)| :: env.canonical(l)[i] >= ' ')
    && (forall l: Line :: env.parse(env.canonical(l)) == Some(l))
    && (forall l: Line, k: nat | 0 < k < |env.canonical(l)| :: env.parse(env.canonical(l)[..k]) == None)
    && (forall p: nat, h: nat, body: Body ::
          HoldsRawBreak(env.canonical(Line(Hex64(p), Hex64(h), body))) <==> !CleanBody(body, env))
  }

  // The canonical form of the line, under whatever hashes, holds no raw break.
  ghost predicate CleanBody(body: Body, env: Env) {
    !HoldsRawBreak(env.canonical(Line(GENESIS, GENESIS, body)))
  }

  // No character of the canonical form ends a line.
  predicate OneLine(l: Line, env: Env) {
    FirstBreak(env.canonical(l), 0) == |env.canonical(l)|
  }

  predicate OneLineEach(lines: seq<Line>, env: Env) {
    forall i | 0 <= i < |lines| :: OneLine(lines[i], env)
  }

  // The characters that end a line for splitlines and need no escape in JSON.
  predicate HoldsRawBreak(s: string) {
    exists i :: 0 <= i < |s| && s[i] as int in {0x85, 0x2028, 0x2029}
  }

  lemma OneLineIff(l: Line, env: Env)
    requires FaithfulJson(env)
    ensures OneLine(l, env) <==> !HoldsRawBreak(env.canonical(l))
  {
    var s := env.canonical(l);
    var k := FirstBreak(s, 0);
    if k < |s| {
      assert IsBreak(s[k]) && s[k] >= ' ';
    }
  }

  lemma OneLineFirst(lines: seq<Line>, env: Env)
    requires lines != []
    ensures OneLineEach(lines, env) <==> OneLine(lines[0], env) && OneLineEach(lines[1..], env)
  {
    assert forall i | 0 < i < |lines| :: lines[i] == lines[1..][i - 1];
  }

  lemma {:induction false} FirstBreakIn(s: string, t: string, i: nat)
    requires i <= |s|
    ensures FirstBreak(s + ['\n'] + t, i) == FirstBreak(s, i)
    decreases |s| - i
  {
    if i < |s| && !IsBreak(s[i]) {
      FirstBreakIn(s, t, i + 1);
    }
  }

  // Splitting what was written gives the canonical lines back, up to the first one that holds a line
  // break of its own; that one is torn.
  lemma SplitWritten(lines: seq<Line>, env: Env)
    requires lines != []
    ensures
      var s := env.canonical(lines[0]);
      var k := FirstBreak(s, 0);
      && SplitLines(Written(lines, env)) != []
      && SplitLines(Written(lines, env))[0] == s[..k]
      && (OneLine(lines[0], env) ==>
            s[..k] == s && SplitLines(Written(lines, env)) == [s] + SplitLines(Written(lines[1..], env)))
  {
    var s, rest := env.canonical(lines[0]), Written(lines[1..], env);
    var t := s + ['\n'] + rest;
    FirstBreakIn(s, rest, 0);
    var k := FirstBreak(s, 0);
    assert t[..k] == s[..k];
    if k == |s| {
      assert s[..k] == s && t[k + 1..] == rest;
    }
  }

  // A canonical line that fits the chain is taken as it is, by the strict check and by a rehash.
  lemma TakesCanonical(before: seq<Line>, line: Line, rehash: bool, env: Env)
    requires FaithfulJson(env) && ValidLine(line, |before| + 1, false)
    requires line.prevHash == HashBefore(before, |before|) && line.lineHash == LineHash(line.prevHash, line.body, env)
    ensures ScanLine(Scan(before, line.prevHash, true), env.canonical(line), rehash, env)
         == Scan(before + [line], line.lineHash, true)
  {
    assert !IsSpace(env.canonical(line)[0]);
  }

  // A torn line is not JSON.
  lemma TornCrashes(s: Scan, line: Line, rehash: bool, env: Env)
    requires FaithfulJson(env) && !OneLine(line, env) && s.Scan?
    ensures ScanLine(s, env.canonical(line)[..FirstBreak(env.canonical(line), 0)], rehash, env).Crashed?
  {
    var k := FirstBreak(env.canonical(line), 0);
    assert !IsBreak('{');
    assert !IsSpace(env.canonical(line)[..k][0]);
  }

  lemma NextSealed(before: seq<Line>, lines: seq<Line>, env: Env)
    requires Chain(before + lines, env) && lines != []
    ensures ValidLine(lines[0], |before| + 1, false)
    ensures lines[0].prevHash == HashBefore(before, |before|)
    ensures lines[0].lineHash == LineHash(lines[0].prevHash, lines[0].body, env)
    ensures before + lines == before + [lines[0]] + lines[1..]
  {
    var all := before + lines;
    assert SealedAt(all, |before|, env) && all[|before|] == lines[0];
    assert HashBefore(all, |before|) == HashBefore(before, |before|);
  }

  // The strict check (and a second rehash) of a sealed chain, read back from what was written.
  lemma {:induction false} RereadChain(
    raws: seq<string>, done: nat, before: seq<Line>, lines: seq<Line>, rehash: bool, env: Env)
    requires FaithfulJson(env) && Chain(before + lines, env)
    requires done <= |raws| && raws[done..] == SplitLines(Written(lines, env))
    requires ScanAll(raws, done, rehash, env) == Scan(before, HashBefore(before, |before|), true)
    ensures
      var s := ScanAll(raws, |raws|, rehash, env);
      if OneLineEach(lines, env) then s == Scan(before + lines, HashBefore(before + lines, |before + lines|), true)
      else s.Crashed?
    decreases |lines|
  {
    if lines == [] {
      assert before + lines == before && done == |raws|;
    } else {
      var line := lines[0];
      SplitWritten(lines, env);
      OneLineFirst(lines, env);
      assert raws[done] == raws[done..][0];
      NextSealed(before, lines, env);
      if OneLine(line, env) {
        var next := before + [line];
        assert raws[done + 1..] == raws[done..][1..];
        TakesCanonical(before, line, rehash, env);
        RereadChain(raws, done + 1, next, lines[1..], rehash, env);
      } else {
        TornCrashes(ScanAll(raws, done, rehash, env), line, rehash, env);
        CrashStays(raws, done + 1, |raws|, rehash, env);
      }
    }
  }

  lemma RereadFile(lines: seq<Line>, rehash: bool, env: Env)
    requires FaithfulJson(env) && Chain(lines, env)
    ensures
      var raws := SplitLines(FileText(lines, env));
      ScanAll(raws, |raws|, rehash, env)
      == if OneLineEach(lines, env) then Scan(lines, HashBefore(lines, |lines|), true) else Crashed
  {
    var out := FileText(lines, env);
    var raws := SplitLines(out);
    if lines == [] {
      assert FirstBreak(out, 0) == 0 && out[1..] == [] && out[..0] == [];
      assert raws == [out[..0]] + SplitLines(out[1..]);
      assert SplitLines(out[1..]) == [];
      assert raws == [[]] && Blank(raws[0]);
      assert ScanAll(raws, 0, rehash, env) == Scan([], GENESIS, true);
      assert ScanAll(raws, 1, rehash, env) == ScanAll(raws, 0, rehash, env);
    } else {
      assert [] + lines == lines && raws[0..] == raws;
      RereadChain(raws, 0, [], lines, rehash, env);
    }
  }

  // The lines of the text that are JSON hold no raw break once they are written canonically.
  ghost predicate CleanText(raws: seq<string>, env: Env) {
    forall i | 0 <= i < |raws| && env.parse(raws[i]).Some? :: CleanBody(env.parse(raws[i]).value.body, env)
  }

  // Sealing a line leaves its body alone.
  ghost predicate ReadBodies(raws: seq<string>, lines: seq<Line>, env: Env) {
    && |lines| == |raws|
    && forall i | 0 <= i < |raws| :: env.parse(raws[i]).Some? && env.parse(raws[i]).value.body == lines[i].body
  }

  lemma {:induction false} ScanReadsBodies(raws: seq<string>, n: nat, rehash: bool, env: Env)
    requires n <= |raws|
    ensures var s := ScanAll(raws, n, rehash, env); s.Scan? && s.ok ==> ReadBodies(NonBlank(raws, n), s.lines, env)
  {
    if n > 0 {
      ScanReadsBodies(raws, n - 1, rehash, env);
    }
  }

  lemma CleanLine(raws: seq<string>, lines: seq<Line>, i: nat, env: Env)
    requires FaithfulJson(env) && ReadBodies(raws, lines, env) && Chain(lines, env) && i < |raws|
    ensures OneLine(lines[i], env) <==> CleanBody(env.parse(raws[i]).value.body, env)
  {
    OneLineIff(lines[i], env);
    assert SealedAt(lines, i, env);
    assert lines[i] == Line(Hex64(lines[i].prevHash.n), Hex64(lines[i].lineHash.n), lines[i].body);
  }

  // A file written by --rehash passes the strict check, and a second rehash writes the same text, if
  // and only if no line of the text it came from holds, however escaped, one of the characters that
  // end a line for splitlines and that the canonical form leaves unescaped (U+0085, U+2028, U+2029).
  // Otherwise both runs crash.
  lemma RehashRoundTrip(text: string, env: Env)
    requires FaithfulJson(env) && Judge(text, true, env).Verdict? && Judge(text, true, env).ok
    ensures
      var first, raws := Judge(text, true, env), SplitLines(text);
      var clean := CleanText(NonBlank(raws, |raws|), env);
      && (Accepted(first.written.value, env) <==> clean)
      && (Judge(first.written.value, true, env) == first <==> clean)
      && (!clean ==> Judge(first.written.value, false, env).Crash? && Judge(first.written.value, true, env).Crash?)
  {
    var first := Judge(text, true, env);
    var raws := SplitLines(text);
    ScanChains(raws, |raws|, true, env);
    RereadFile(first.lines, false, env);
    RereadFile(first.lines, true, env);
    ScanReadsBodies(raws, |raws|, true, env);
    CleanTextIff(NonBlank(raws, |raws|), first.lines, env);
  }

  lemma CleanTextIff(raws: seq<string>, lines: seq<Line>, env: Env)
    requires FaithfulJson(env) && ReadBodies(raws, lines, env) && Chain(lines, env)
    ensures CleanText(raws, env) <==> OneLineEach(lines, env)
  {
    forall i | 0 <= i < |raws| ensures OneLine(lines[i], env) <==> CleanBody(env.parse(raws[i]).value.body, env) {
      CleanLine(raws, lines, i, env);
    }
  }
}
