// The goal automaton of scripts/validate_trajectory_v3.py: state.goal.applied entries over a whole log.

module Goals {
  import opened Options

  datatype Lifecycle = Achieved | Cleared | Failed | Ongoing(name: string)

  datatype Event = GoalApplied(goal: string, from: int, to: int, lifecycle: Lifecycle) | Other

  predicate Terminal(l: Lifecycle) {
    !l.Ongoing?
  }

  // The part of validate_line that concerns goal entries.
  predicate ValidEntry(e: Event) {
    e.GoalApplied? ==> e.from >= 0 && e.to == e.from + 1
  }

  datatype GoalState = GoalState(nextFrom: int, terminal: bool)

  // goals, open_goal and the number of problems found so far.
  datatype Books = Books(goals: map<string, GoalState>, open: Option<string>, problems: nat)

  function Enter(b: Books, e: Event): Books {
    if !e.GoalApplied? then b
    else
      var s := if e.goal in b.goals then b.goals[e.goal] else GoalState(0, false);
      if s.terminal then Books(b.goals[e.goal := s], b.open, b.problems + 1)
      else
        var gap := if e.from != s.nextFrom then 1 else 0;
        var goals := b.goals[e.goal := GoalState(e.to, Terminal(e.lifecycle))];
        if Terminal(e.lifecycle) then
          Books(goals, if b.open == Some(e.goal) then None else b.open, b.problems + gap)
        else if b.open.None? then Books(goals, Some(e.goal), b.problems + gap)
        else if b.open != Some(e.goal) then Books(goals, b.open, b.problems + gap + 1)
        else Books(goals, b.open, b.problems + gap)
  }

  function Replay(log: seq<Event>, n: nat): Books
    requires n <= |log|
  {
    if n == 0 then Books(map[], None, 0) else Enter(Replay(log, n - 1), log[n - 1])
  }

  method ValidateGoals(log: seq<Event>) returns (problems: nat)
    ensures problems == Replay(log, |log|).problems
  {
    var goals: map<string, GoalState> := map[];
    var openGoal: Option<string> := None;
    problems := 0;
    for i := 0 to |log|
      invariant Books(goals, openGoal, problems) == Replay(log, i)
    {
      var e := log[i];
      if !e.GoalApplied? {
        continue;
      }
      if e.goal !in goals {
        goals := goals[e.goal := GoalState(0, false)];
      }
      var state := goals[e.goal];
      if state.terminal {
        problems := problems + 1;
        continue;
      }
      if e.from != state.nextFrom {
        problems := problems + 1;
      }
      state := state.(nextFrom := e.to);
      if Terminal(e.lifecycle) {
        state := state.(terminal := true);
        if openGoal == Some(e.goal) {
          openGoal := None;
        }
      } else if openGoal.None? {
        openGoal := Some(e.goal);
      } else if openGoal != Some(e.goal) {
        problems := problems + 1;
      }
      goals := goals[e.goal := state];
    }
  }

  // ---- What a clean log means ---------------------------------------------------------------

  ghost predicate IsFinal(l: Lifecycle) {
    l == Achieved || l == Cleared || l == Failed
  }

  predicate EntryOf(e: Event, goal: string) {
    e.GoalApplied? && e.goal == goal
  }

  // Entries of a goal among the first `n` events.
  function Entries(log: seq<Event>, n: nat, goal: string): nat
    requires n <= |log|
  {
    if n == 0 then 0 else Entries(log, n - 1, goal) + if EntryOf(log[n - 1], goal) then 1 else 0
  }

  ghost predicate Ended(log: seq<Event>, n: nat, goal: string)
    requires n <= |log|
  {
    exists i :: 0 <= i < n && EntryOf(log[i], goal) && IsFinal(log[i].lifecycle)
  }

  ghost predicate Unfinished(log: seq<Event>, n: nat, goal: string)
    requires n <= |log|
  {
    Entries(log, n, goal) > 0 && !Ended(log, n, goal)
  }

  ghost predicate OneAtATime(log: seq<Event>, n: nat)
    requires n <= |log|
  {
    forall x, y | Unfinished(log, n, x) && Unfinished(log, n, y) :: x == y
  }

  // The revisions of every goal count 0, 1, 2, ... without a gap, nothing follows a terminal entry,
  // and no prefix leaves two goals unfinished.
  ghost predicate WellRun(log: seq<Event>, n: nat)
    requires n <= |log|
  {
    && (forall i | 0 <= i < n && log[i].GoalApplied? ::
          log[i].from == Entries(log, i, log[i].goal) && !Ended(log, i, log[i].goal))
    && (forall k | 0 <= k <= n :: OneAtATime(log, k))
  }

  // While no problem has been found, the books say what the log says.
  ghost predicate Faithful(log: seq<Event>, n: nat)
    requires n <= |log|
  {
    var b := Replay(log, n);
    && (forall x :: x in b.goals <==> Entries(log, n, x) > 0)
    && (forall x | x in b.goals ::
        b.goals[x].nextFrom == Entries(log, n, x) && (b.goals[x].terminal <==> Ended(log, n, x)))
    && (forall x :: b.open == Some(x) <==> Unfinished(log, n, x))
  }

  lemma EndedStep(log: seq<Event>, n: nat, goal: string)
    requires n < |log|
    ensures Ended(log, n + 1, goal) <==> Ended(log, n, goal) || (EntryOf(log[n], goal) && IsFinal(log[n].lifecycle))
  {
  }

  lemma {:induction false} NeverEntered(log: seq<Event>, n: nat, goal: string)
    requires n <= |log| && Entries(log, n, goal) == 0
    ensures !Ended(log, n, goal)
  {
    if n > 0 {
      NeverEntered(log, n - 1, goal);
      EndedStep(log, n - 1, goal);
    }
  }

  // The next event may be entered without a problem.
  ghost predicate Fits(log: seq<Event>, n: nat)
    requires n < |log|
  {
    log[n].GoalApplied? ==>
      && log[n].from == Entries(log, n, log[n].goal) && !Ended(log, n, log[n].goal)
      && (IsFinal(log[n].lifecycle) || forall x | Unfinished(log, n, x) :: x == log[n].goal)
  }

  lemma EnterFaithfully(log: seq<Event>, n: nat)
    requires n < |log| && ValidEntry(log[n]) && Faithful(log, n)
    ensures Replay(log, n + 1).problems == Replay(log, n).problems <==> Fits(log, n)
    ensures Fits(log, n) ==> Faithful(log, n + 1)
  {
    if log[n].GoalApplied? {
      var goal := log[n].goal;
      if Entries(log, n, goal) == 0 {
        NeverEntered(log, n, goal);
      }
      var b := Replay(log, n);
      assert b.open.Some? ==> Unfinished(log, n, b.open.value);
      forall x ensures Ended(log, n + 1, x) <==> Ended(log, n, x) || (x == goal && IsFinal(log[n].lifecycle)) {
        EndedStep(log, n, x);
      }
    } else {
      forall x ensures (Ended(log, n + 1, x) <==> Ended(log, n, x)) && Entries(log, n + 1, x) == Entries(log, n, x) {
        EndedStep(log, n, x);
      }
    }
  }

  lemma UnfinishedStep(log: seq<Event>, n: nat, goal: string)
    requires n < |log|
    ensures Unfinished(log, n + 1, goal)
       <==> if EntryOf(log[n], goal) then !Ended(log, n, goal) && !IsFinal(log[n].lifecycle)
            else Unfinished(log, n, goal)
  {
    EndedStep(log, n, goal);
  }

  lemma FitsStaysWellRun(log: seq<Event>, n: nat)
    requires n < |log| && WellRun(log, n)
    ensures WellRun(log, n + 1) <==> Fits(log, n)
  {
    forall x ensures Unfinished(log, n + 1, x)
      <==> if EntryOf(log[n], x) then !Ended(log, n, x) && !IsFinal(log[n].lifecycle) else Unfinished(log, n, x)
    {
      UnfinishedStep(log, n, x);
    }
    if Fits(log, n) {
      assert OneAtATime(log, n);
      assert OneAtATime(log, n + 1);
    }
    if WellRun(log, n + 1) && log[n].GoalApplied? && !IsFinal(log[n].lifecycle) {
      assert OneAtATime(log, n + 1);
      assert Unfinished(log, n + 1, log[n].goal);
    }
  }

  // A log raises no goal problem if and only if its goals are well run; and the books it leaves then
  // count every revision and name the one unfinished goal.
  lemma {:induction false} CleanIffWellRun(log: seq<Event>, n: nat)
    requires n <= |log| && forall i | 0 <= i < |log| :: ValidEntry(log[i])
    ensures Replay(log, n).problems == 0 <==> WellRun(log, n)
    ensures WellRun(log, n) ==> Faithful(log, n)
  {
    if n > 0 {
      CleanIffWellRun(log, n - 1);
      if WellRun(log, n - 1) {
        EnterFaithfully(log, n - 1);
        FitsStaysWellRun(log, n - 1);
      }
    } else {
      assert OneAtATime(log, 0) by {
        assert forall x :: !Unfinished(log, 0, x);
      }
    }
  }

  // ---- What the problems are ----------------------------------------------------------------

  // An entry after a final one of its goal.
  ghost predicate Late(log: seq<Event>, i: int) {
    0 <= i < |log| && log[i].GoalApplied? && Ended(log, i, log[i].goal)
  }

  ghost predicate LastEntry(log: seq<Event>, n: nat, goal: string, k: int) {
    0 <= k < n <= |log| && EntryOf(log[k], goal) && forall j | k < j < n :: !EntryOf(log[j], goal)
  }

  // An entry that does not start where the last one of its goal ended, or at 0 when it is the first.
  ghost predicate Gap(log: seq<Event>, i: int) {
    && 0 <= i < |log| && log[i].GoalApplied? && !Late(log, i)
    && if Entries(log, i, log[i].goal) == 0 then log[i].from != 0
       else exists k :: LastEntry(log, i, log[i].goal, k) && log[k].to != log[i].from
  }

  // The goal of entry `k` has not ended since.
  ghost predicate StillOpen(log: seq<Event>, n: int, k: int) {
    && 0 <= k < n <= |log| && log[k].GoalApplied?
    && forall j | k < j < n :: !(EntryOf(log[j], log[k].goal) && IsFinal(log[j].lifecycle))
  }

  // Entry `k` opens its goal: it is no late one, leaves the goal unfinished, and no other is open.
  ghost predicate Opens(log: seq<Event>, k: int)
    decreases k
  {
    && 0 <= k < |log| && log[k].GoalApplied? && !IsFinal(log[k].lifecycle) && !Late(log, k)
    && forall j | 0 <= j < k :: !(Opens(log, j) && StillOpen(log, k, j))
  }

  ghost predicate Holds(log: seq<Event>, n: int, k: int) {
    Opens(log, k) && StillOpen(log, n, k)
  }

  // An entry that leaves its goal unfinished while another one is open.
  ghost predicate Clash(log: seq<Event>, i: int) {
    && 0 <= i < |log| && log[i].GoalApplied? && !Late(log, i) && !IsFinal(log[i].lifecycle)
    && exists k :: Holds(log, i, k) && log[k].goal != log[i].goal
  }

  ghost function ProblemsAt(log: seq<Event>, i: int): nat {
    (if Late(log, i) then 1 else 0) + (if Gap(log, i) then 1 else 0) + (if Clash(log, i) then 1 else 0)
  }

  ghost function AllProblems(log: seq<Event>, n: nat): nat
    requires n <= |log|
  {
    if n == 0 then 0 else AllProblems(log, n - 1) + ProblemsAt(log, n - 1)
  }

  // What the books say, problems or not.
  ghost predicate GoalsTold(b: Books, log: seq<Event>, n: nat)
    requires n <= |log|
  {
    && (forall x :: x in b.goals <==> Entries(log, n, x) > 0)
    && (forall x | x in b.goals :: b.goals[x].terminal <==> Ended(log, n, x))
    && (forall x, k | x in b.goals && !b.goals[x].terminal && LastEntry(log, n, x, k) ::
          b.goals[x].nextFrom == log[k].to)
  }

  ghost predicate OpenTold(b: Books, log: seq<Event>, n: nat)
    requires n <= |log|
  {
    if b.open.None? then NoneHeld(log, n) else exists k :: Holds(log, n, k) && log[k].goal == b.open.value
  }

  ghost predicate Recorded(b: Books, log: seq<Event>, n: nat)
    requires n <= |log|
  {
    GoalsTold(b, log, n) && OpenTold(b, log, n)
  }

  lemma HoldsOnce(log: seq<Event>, n: nat, j: int, k: int)
    requires Holds(log, n, j) && Holds(log, n, k)
    ensures j == k
  {
    if j < k {
      assert StillOpen(log, k, j);
    } else if k < j {
      assert StillOpen(log, j, k);
    }
  }

  lemma StillOpenNext(log: seq<Event>, n: nat, k: int)
    requires n < |log|
    ensures StillOpen(log, n + 1, k) <==>
      || (StillOpen(log, n, k) && !(EntryOf(log[n], log[k].goal) && IsFinal(log[n].lifecycle)))
      || (k == n && log[n].GoalApplied?)
  {
  }

  lemma HoldsNext(log: seq<Event>, n: nat, k: int)
    requires n < |log|
    ensures Holds(log, n + 1, k) <==>
      || (Holds(log, n, k) && !(EntryOf(log[n], log[k].goal) && IsFinal(log[n].lifecycle)))
      || (k == n && Opens(log, n))
  {
    StillOpenNext(log, n, k);
  }

  lemma OpensIff(log: seq<Event>, n: nat)
    requires n < |log|
    ensures Opens(log, n) <==>
      log[n].GoalApplied? && !IsFinal(log[n].lifecycle) && !Late(log, n) && NoneHeld(log, n)
  {
    if NoneHeld(log, n) {
      forall j | 0 <= j < n ensures !(Opens(log, j) && StillOpen(log, n, j)) {
        assert !Holds(log, n, j);
      }
    }
  }

  ghost predicate NoneHeld(log: seq<Event>, n: int) {
    forall j :: !Holds(log, n, j)
  }

  lemma {:induction false} FindLast(log: seq<Event>, n: nat, goal: string) returns (k: nat)
    requires n <= |log| && Entries(log, n, goal) > 0
    ensures LastEntry(log, n, goal, k)
  {
    if EntryOf(log[n - 1], goal) {
      k := n - 1;
    } else {
      k := FindLast(log, n - 1, goal);
    }
  }

  lemma LastNext(log: seq<Event>, n: nat, goal: string, k: int)
    requires n < |log|
    ensures LastEntry(log, n + 1, goal, k) <==> if EntryOf(log[n], goal) then k == n else LastEntry(log, n, goal, k)
  {
  }

  lemma GapIff(b: Books, log: seq<Event>, n: nat)
    requires n < |log| && Recorded(b, log, n) && log[n].GoalApplied? && !Late(log, n)
    ensures Gap(log, n) <==> log[n].from != if log[n].goal in b.goals then b.goals[log[n].goal].nextFrom else 0
  {
    if Entries(log, n, log[n].goal) > 0 {
      var k := FindLast(log, n, log[n].goal);
      assert forall j | LastEntry(log, n, log[n].goal, j) :: j == k;
    }
  }

  lemma ClashIff(b: Books, log: seq<Event>, n: nat)
    requires n < |log| && Recorded(b, log, n) && log[n].GoalApplied? && !Late(log, n) && !IsFinal(log[n].lifecycle)
    ensures Clash(log, n) <==> b.open.Some? && b.open.value != log[n].goal
  {
    if b.open.Some? {
      var k :| Holds(log, n, k) && log[k].goal == b.open.value;
      forall j | Holds(log, n, j) ensures j == k {
        HoldsOnce(log, n, j, k);
      }
    }
  }

  // The goals in the books, and what is open, after one more entry.
  lemma GoalsRecorded(b: Books, log: seq<Event>, n: nat)
    requires n < |log| && Recorded(b, log, n)
    ensures GoalsTold(Enter(b, log[n]), log, n + 1)
  {
    var e := log[n];
    forall x ensures Ended(log, n + 1, x) <==> Ended(log, n, x) || (EntryOf(e, x) && IsFinal(e.lifecycle)) {
      EndedStep(log, n, x);
    }
    if e.GoalApplied? && Entries(log, n, e.goal) == 0 {
      NeverEntered(log, n, e.goal);
    }
    forall x, k
      ensures LastEntry(log, n + 1, x, k) <==> if EntryOf(log[n], x) then k == n else LastEntry(log, n, x, k)
    {
      LastNext(log, n, x, k);
    }
  }

  lemma OpenRecorded(b: Books, log: seq<Event>, n: nat)
    requires n < |log| && Recorded(b, log, n)
    ensures OpenTold(Enter(b, log[n]), log, n + 1)
  {
    var e, after, m := log[n], Enter(b, log[n]), n + 1;
    forall k ensures Holds(log, m, k) <==>
      || (Holds(log, n, k) && !(EntryOf(e, log[k].goal) && IsFinal(e.lifecycle)))
      || (k == n && Opens(log, n))
    {
      HoldsNext(log, n, k);
    }
    OpensIff(log, n);
    if e.GoalApplied? && Entries(log, n, e.goal) == 0 {
      NeverEntered(log, n, e.goal);
    }
    if b.open.Some? {
      var k :| Holds(log, n, k) && log[k].goal == b.open.value;
      forall j | Holds(log, n, j) ensures j == k {
        HoldsOnce(log, n, j, k);
      }
      LateIsHeldByNone(log, n, k);
      if after.open.Some? {
        assert Holds(log, m, k);
      }
    } else if after.open.Some? {
      assert Holds(log, m, n);
    }
  }

  // What is open has not ended.
  lemma LateIsHeldByNone(log: seq<Event>, n: nat, k: int)
    requires Holds(log, n, k)
    ensures !Ended(log, n, log[k].goal)
  {
    forall i | 0 <= i < n ensures !(EntryOf(log[i], log[k].goal) && IsFinal(log[i].lifecycle)) {
    }
  }

  lemma EntryRecorded(b: Books, log: seq<Event>, n: nat)
    requires n < |log| && Recorded(b, log, n)
    ensures Recorded(Enter(b, log[n]), log, n + 1)
    ensures Enter(b, log[n]).problems == b.problems + ProblemsAt(log, n)
  {
    GoalsRecorded(b, log, n);
    OpenRecorded(b, log, n);
    if log[n].GoalApplied? {
      if Entries(log, n, log[n].goal) == 0 {
        NeverEntered(log, n, log[n].goal);
      }
      if !Late(log, n) {
        GapIff(b, log, n);
        if !IsFinal(log[n].lifecycle) {
          ClashIff(b, log, n);
        }
      }
    }
  }

  // Every problem is counted, after the first one too: late entries, gaps and clashes.
  lemma {:induction false} ProblemsAreCounted(log: seq<Event>, n: nat)
    requires n <= |log|
    ensures Replay(log, n).problems == AllProblems(log, n) && Recorded(Replay(log, n), log, n)
  {
    if n > 0 {
      ProblemsAreCounted(log, n - 1);
      EntryRecorded(Replay(log, n - 1), log, n - 1);
    } else {
      forall k ensures !Holds(log, 0, k) {
      }
    }
  }
}
