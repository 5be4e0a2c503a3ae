/** How paths move, when the machine closes, and what its output means. */
module Outcomes {
  import opened Basics
  import opened Labels
  import opened Sorting
  import opened Cvm
  import opened Traces

  /* ---------- one accepted input ---------- */

  /** The moves an accepted path action can make. */
  predicate Moves(was: PathState, now: PathState, status: Status) {
    match now
    case Open => false
    case Locked => was.Open? || was.Spent?
    case Disputed => !was.Disputed?
    case Spent => was.Open? || was.Spent? || status.Disputed?
  }

  /** An accepted input is a close, or moves exactly the path it names. */
  lemma Accepted(m: Machine, input: Input)
    requires Update(m, input).Ok?
    ensures m.commitAt <= input.stamp < m.expiresAt
    ensures input.action != "close" ==> input.path.Some? && FindPath(m.paths, input.path.value) < |m.paths|
    ensures var next := Update(m, input).value;
            if input.action == "close" then
              next == Commit(m.(status := Status.Closed), input)
            else
              var i := FindPath(m.paths, input.path.value);
              && |next.paths| == |m.paths|
              && Moves(m.paths[i].state, next.paths[i].state, m.status)
              && (next.paths[i].state.Locked? <==> input.action == "lock")
              && (next.paths[i].state.Disputed? <==> input.action == "dispute")
              && var paths := m.paths[i := PathEntry(input.path.value, next.paths[i].state)];
                 next == Commit(m.(paths := paths, status := StatusAfter(m.status, next.paths[i].state)), input)
  {
  }

  /* ---------- the output ---------- */

  predicate NoneSpent(paths: seq<PathEntry>) {
    forall e | e in paths :: !e.state.Spent?
  }

  /** `name` is a path, it is spent, and no other path is. */
  predicate OnlySpent(paths: seq<PathEntry>, name: string) {
    && (exists e :: e in paths && e.name == name)
    && forall e | e in paths :: e.state.Spent? <==> e.name == name
  }

  predicate IsPath(paths: seq<PathEntry>, name: string, state: PathState) {
    PathEntry(name, state) in paths
  }

  predicate DistinctNames(paths: seq<PathEntry>) {
    forall i, j | 0 <= i < j < |paths| :: paths[i].name != paths[j].name
  }

  predicate OutcomeInv(m: Machine) {
    && DistinctNames(m.paths)
    && (m.status.Closed? || m.status.Spent? ==> m.closed)
    && (m.closed <==> m.closedAt.Some?)
    && (m.output.Some? ==> m.closed && m.closedAt == Some(m.commitAt))
    && (m.output.None? ==> NoneSpent(m.paths) && !m.status.Spent?)
    && (m.output.Some? && m.status.Spent? ==> OnlySpent(m.paths, m.output.value))
    && (m.output.Some? && !m.status.Spent? ==>
          m.status.Closed? && NoneSpent(m.paths) && IsPath(m.paths, m.output.value, PathState.Locked))
  }

  /** Moving one path among distinct names, none of them spent. */
  lemma MoveOne(paths: seq<PathEntry>, i: nat, state: PathState)
    requires i < |paths| && DistinctNames(paths) && NoneSpent(paths)
    ensures var now := paths[i := PathEntry(paths[i].name, state)];
            && DistinctNames(now)
            && (if state.Spent? then OnlySpent(now, paths[i].name) else NoneSpent(now))
            && (state.Locked? ==> IsPath(now, paths[i].name, PathState.Locked))
  {
    var now := paths[i := PathEntry(paths[i].name, state)];
    assert now[i] in now;
    forall e | e in now ensures e == now[i] || (e in paths && e.name != now[i].name) {
      var j :| 0 <= j < |now| && now[j] == e;
      assert j != i ==> e == paths[j];
    }
  }

  lemma OutcomeAttempt(m: Machine, input: Input)
    requires OutcomeInv(m) && m.output.None? && WellFormed(input)
    ensures OutcomeInv(Attempt(m, input))
  {
    hide Update, NoneSpent, OnlySpent, IsPath, DistinctNames;
    if Update(m, input).Ok? {
      Accepted(m, input);
      if input.action != "close" {
        var i := FindPath(m.paths, input.path.value);
        MoveOne(m.paths, i, Update(m, input).value.paths[i].state);
      }
    }
  }

  lemma OutcomeEvent(m: Machine, e: Event)
    requires OutcomeInv(m) && Legal(m, e)
    ensures OutcomeInv(Apply(m, e))
  {
    match e
    case SetError(_) =>
    case DropTask =>
    case Scheduled(input) => OutcomeAttempt(m, input);
    case Stated(wit) =>
      if Loads(m, wit) {
        OutcomeAttempt(Record(m, wit), InputOf(wit));
      }
  }

  lemma {:induction false} InitPathsShape(pathnames: seq<string>, programs: seq<ProgramEntry>)
    requires InitPaths(pathnames, programs).Returns?
    ensures var paths := InitPaths(pathnames, programs).value;
            && |paths| == |pathnames|
            && NoneSpent(paths)
            && forall i | 0 <= i < |paths| ::
                 paths[i].name == pathnames[i] && InitPathState(pathnames[i], programs) == Returns(paths[i].state)
  {
    if pathnames != [] {
      var n := |pathnames| - 1;
      InitPathsShape(pathnames[..n], programs);
      InitPathNotSpent(pathnames[n], programs);
      var rest := InitPaths(pathnames[..n], programs).value;
      var paths := InitPaths(pathnames, programs).value;
      assert paths == rest + [paths[n]];
    }
  }

  lemma {:induction false} InitPathNotSpent(pathname: string, programs: seq<ProgramEntry>)
    ensures AllTerms(pathname, programs).1.Open? || AllTerms(pathname, programs).1.Locked?
  {
    if programs != [] {
      InitPathNotSpent(pathname, programs[..|programs| - 1]);
    }
  }

  lemma OutcomeInit(c: Config)
    requires InitVm(c).Returns? && Distinct(c.pathnames)
    ensures OutcomeInv(InitVm(c).value)
  {
    InitPathsShape(c.pathnames, c.programs);
  }

  lemma OutcomeRun(c: Config, rs: seq<Request>)
    requires Run(c, rs).Returns? && Distinct(c.pathnames)
    ensures OutcomeInv(Run(c, rs).value)
  {
    OutcomeInit(c);
    forall m, e | OutcomeInv(m) && Legal(m, e) ensures OutcomeInv(Apply(m, e)) {
      OutcomeEvent(m, e);
    }
    RunInvariant(m => OutcomeInv(m), _ => true, c, rs);
  }

  ghost predicate OneOutcome(m: Machine) {
    forall name :: m.output == Some(name) <==> m.status.Spent? && OnlySpent(m.paths, name)
  }

  /** After every run, with any statements and any schedule: an output closes the machine,
      at the time of the last commit; it is the one spent path of a machine whose status is
      `spent`, unless the machine's status is `closed`, and then no path is spent and the
      output is a path the schedule locked after a close. */
  lemma OutputMeansSpent(c: Config, rs: seq<Request>)
    requires Run(c, rs).Returns? && Distinct(c.pathnames)
    ensures var m := Run(c, rs).value;
            && (m.output.Some? ==> m.closed && m.closedAt == Some(m.commitAt))
            && (m.output.None? ==> NoneSpent(m.paths))
            && (OneOutcome(m) <==> !(m.output.Some? && m.status.Closed?))
            && (!OneOutcome(m) ==> NoneSpent(m.paths) && IsPath(m.paths, m.output.value, PathState.Locked))
  {
    OutcomeRun(c, rs);
  }

  /** The branch that breaks it, known before the call: a lock accepted when the status is `closed`. */
  lemma OneOutcomeStep(m: Machine, input: Input)
    requires OutcomeInv(m) && m.output.None? && WellFormed(input) && Update(m, input).Ok?
    ensures OneOutcome(Update(m, input).value) <==> !(m.status.Closed? && input.action == "lock")
  {
    OutcomeAttempt(m, input);
    Accepted(m, input);
    var next := Update(m, input).value;
    if input.action != "close" {
      var i := FindPath(m.paths, input.path.value);
      assert next.status.Closed? <==> m.status.Closed? && next.paths[i].state.Locked?;
    }
  }

  const CLOSE_TASK := Task(1, "close", "payout")
  const LOCK_TASK := Task(2, "lock", "payout")

  /** A proposal whose schedule closes the machine and then locks a path. */
  const CLOSE_THEN_LOCK :=
    Config(START, "cvm", START + 100, ["payout"], [], [CLOSE_TASK, LOCK_TASK], VMID)

  lemma OnePathInit(c: Config)
    requires c.pathnames == ["payout"] && c.programs == []
    ensures InitVm(c).Returns? && InitVm(c).value.paths == [PathEntry("payout", PathState.Open)]
  {
    var names := ["payout"];
    assert names[..|names| - 1] == [];
    assert InitPaths(names[..|names| - 1], []) == Returns([]);
    assert InitPathState("payout", []) == Returns(PathState.Open);
    assert [] + [PathEntry("payout", PathState.Open)] == [PathEntry("payout", PathState.Open)];
  }

  /** A task with one action, on one path when it is a path action, is one attempt. */
  lemma SingleInput(m: Machine, task: Task)
    requires '|' !in task.actions && task.actions != "*"
    requires '|' !in task.paths && task.paths != "*"
    ensures var path := if task.actions in PATH_ACTIONS then Some(task.paths) else None;
            RunTask(m, task) == Attempt(m, Input(task.actions, path, DueAt(m, task), MachineId(m.vmid)))
  {
    var stamp, wid := DueAt(m, task), MachineId(m.vmid);
    assert [task.actions][1..] == [] && [task.paths][1..] == [];
    assert ActionInputs(task.actions, [task.paths], stamp, wid) == [Input(task.actions, Some(task.paths), stamp, wid)];
    var inputs := TaskInputs(m, task);
    assert AccessList(task.actions, VALID_ACTIONS) == [task.actions];
    assert AccessList(task.paths, PathNames(m.paths)) == [task.paths];
    var alist := [task.actions];
    assert Inputs(alist[1..], [task.paths], stamp, wid) == [];
    assert inputs == Inputs(alist, [task.paths], stamp, wid);
    assert |inputs| == 1 && inputs[1..] == [];
    assert RunInputs(Attempt(m, inputs[0]), inputs[1..]) == Attempt(m, inputs[0]);
  }

  lemma CloseThenLockRun(m: Machine)
    requires m.paths == [PathEntry("payout", PathState.Open)] && m.tasks == [CLOSE_TASK, LOCK_TASK]
    requires m.activeAt == m.updatedAt == m.commitAt == START && m.expiresAt == START + 100 && m.output.None?
    ensures RunSchedule(m, START + 50).output == Some("payout") && RunSchedule(m, START + 50).status.Closed?
  {
    hide RunTask;
    assert m.tasks[1..] == [LOCK_TASK] && [LOCK_TASK][1..] == [];
    assert Due(m, [LOCK_TASK], START + 50) == [LOCK_TASK];
    assert Due(m, m.tasks, START + 50) == m.tasks;
    CloseThenLockTasks(m);
    var next := Shift(RunTask(m, CLOSE_TASK));
    assert RunSchedule(m, START + 50) == RunDue(next, [LOCK_TASK]) == Shift(RunTask(next, LOCK_TASK));
  }

  lemma CloseThenLockTasks(m: Machine)
    requires m.paths == [PathEntry("payout", PathState.Open)] && m.tasks == [CLOSE_TASK, LOCK_TASK]
    requires m.activeAt == m.updatedAt == m.commitAt == START && m.expiresAt == START + 100 && m.output.None?
    ensures var next := Shift(RunTask(m, CLOSE_TASK));
            var last := RunTask(next, LOCK_TASK);
            next.output.None? && last.output == Some("payout") && last.status.Closed?
  {
    SingleInput(m, CLOSE_TASK);
    var next := Shift(RunTask(m, CLOSE_TASK));
    SingleInput(next, LOCK_TASK);
    assert FindPath(next.paths, "payout") == 0;
  }

  /** A locked path becomes the output although nothing was ever spent. */
  lemma LockedOutput()
    ensures var result := Run(CLOSE_THEN_LOCK, [Advance(START + 50)]);
            result.Returns? && result.value.output == Some("payout") && !OneOutcome(result.value)
  {
    OnePathInit(CLOSE_THEN_LOCK);
    assert [CLOSE_TASK, LOCK_TASK][1..] == [LOCK_TASK] && [LOCK_TASK][1..] == [];
    assert Sort(ByTimer, [LOCK_TASK]) == [LOCK_TASK];
    var m := InitVm(CLOSE_THEN_LOCK).value;
    CloseThenLockRun(m);
    assert [Advance(START + 50)][1..] == [];
    assert ServeAll(m, [Advance(START + 50)]) == Returns(RunSchedule(m, START + 50));
    OutputMeansSpent(CLOSE_THEN_LOCK, [Advance(START + 50)]);
  }

  /** Once there is an output, nothing a caller asks changes any field. */
  lemma {:induction false} OutputIsFinal(m: Machine, rs: seq<Request>)
    requires m.output.Some?
    ensures ServeAll(m, rs) == Returns(m)
    decreases |rs|
  {
    if rs != [] {
      OutputIsFinal(m, rs[1..]);
    }
  }

  /* ---------- ranks ---------- */

  function Rank(s: PathState): nat {
    match s case Open => 0 case Locked => 1 case Disputed => 2 case Spent => 3
  }

  function RankSum(paths: seq<PathEntry>): nat {
    if paths == [] then 0 else Rank(paths[0].state) + RankSum(paths[1..])
  }

  lemma {:induction false} RankSumUpdate(paths: seq<PathEntry>, i: nat, e: PathEntry)
    requires i < |paths|
    ensures RankSum(paths[i := e]) == RankSum(paths) - Rank(paths[i].state) + Rank(e.state)
  {
    if i == 0 {
      assert paths[i := e][1..] == paths[1..];
    } else {
      assert paths[i := e][1..] == paths[1..][i - 1 := e];
      RankSumUpdate(paths[1..], i - 1, e);
    }
  }

  lemma {:induction false} RankSumBound(paths: seq<PathEntry>)
    requires NoneSpent(paths)
    ensures RankSum(paths) <= 2 * |paths|
  {
    if paths != [] {
      assert forall e | e in paths[1..] :: e in paths;
      assert paths[0] in paths;
      RankSumBound(paths[1..]);
    }
  }

  /** Path states only move up in the order open, locked, disputed, spent, and a disputed
      path only moves to spent. */
  ghost predicate Risen(was: seq<PathEntry>, now: seq<PathEntry>) {
    && |now| == |was|
    && forall i | 0 <= i < |was| ::
         && now[i].name == was[i].name
         && Rank(was[i].state) <= Rank(now[i].state)
         && (was[i].state.Disputed? ==> now[i].state.Disputed? || now[i].state.Spent?)
  }

  lemma MoveRaises(paths: seq<PathEntry>, i: nat, state: PathState, status: Status)
    requires i < |paths| && !paths[i].state.Spent? && Moves(paths[i].state, state, status)
    ensures var now := paths[i := PathEntry(paths[i].name, state)];
            Risen(paths, now) && RankSum(paths) < RankSum(now)
  {
    RankSumUpdate(paths, i, PathEntry(paths[i].name, state));
  }

  /** An accepted input that is not a close raises the rank of exactly one path. */
  lemma RiseAttempt(m: Machine, input: Input)
    requires OutcomeInv(m) && m.output.None? && Update(m, input).Ok?
    ensures var next := Update(m, input).value;
            && Risen(m.paths, next.paths)
            && next.step == m.step + 1
            && (next.closed || RankSum(m.paths) < RankSum(next.paths))
  {
    hide Update, DistinctNames, OnlySpent, IsPath, Moves, RankSum;
    Accepted(m, input);
    if input.action != "close" {
      var i := FindPath(m.paths, input.path.value);
      assert m.paths[i] in m.paths;
      MoveRaises(m.paths, i, Update(m, input).value.paths[i].state, m.status);
    }
  }

  lemma RiseEvent(m: Machine, e: Event)
    requires OutcomeInv(m) && Legal(m, e)
    ensures Risen(m.paths, Apply(m, e).paths)
  {
    match e
    case SetError(_) =>
    case DropTask =>
    case Scheduled(input) =>
      if Update(m, input).Ok? { RiseAttempt(m, input); }
    case Stated(wit) =>
      if Loads(m, wit) && Update(Record(m, wit), InputOf(wit)).Ok? { RiseAttempt(Record(m, wit), InputOf(wit)); }
  }

  /** However a run is continued, no path ever moves back. */
  lemma PathsOnlyRise(c: Config, rs: seq<Request>, more: seq<Request>)
    requires Run(c, rs).Returns? && Distinct(c.pathnames)
    requires ServeAll(Run(c, rs).value, more).Returns?
    ensures Risen(Run(c, rs).value.paths, ServeAll(Run(c, rs).value, more).value.paths)
  {
    OutcomeRun(c, rs);
    var start := Run(c, rs).value;
    var inv := (m: Machine) => OutcomeInv(m) && Risen(start.paths, m.paths);
    forall m, e | inv(m) && Legal(m, e) ensures inv(Apply(m, e)) {
      OutcomeEvent(m, e);
      RiseEvent(m, e);
    }
    var es := ServeAllTrace(start, more, _ => true);
    TraceInvariant(inv, _ => true, start, es, ServeAll(start, more).value);
  }

  /* ---------- how many commits ---------- */

  /** A trace none of whose states but the last is closed. */
  ghost predicate OpenTrace(m: Machine, es: seq<Event>, last: Machine)
    decreases |es|
  {
    if es == [] then m == last
    else !m.closed && Legal(m, es[0]) && OpenTrace(Apply(m, es[0]), es[1..], last)
  }

  /** Every trace has an open part: all of it, or up to and including the commit that first closes it. */
  lemma {:induction false} OpenPart(m: Machine, es: seq<Event>, last: Machine) returns (k: nat, mid: Machine)
    requires Trace(m, es, last)
    ensures k <= |es| && OpenTrace(m, es[..k], mid) && Trace(mid, es[k..], last)
    ensures k == |es| || mid.closed
    decreases |es|
  {
    if es == [] || m.closed {
      k, mid := 0, m;
      assert es[0..] == es;
    } else {
      k, mid := OpenPart(Apply(m, es[0]), es[1..], last);
      k := k + 1;
      assert es[..k][1..] == es[1..][..k - 1];
      assert es[k..] == es[1..][k - 1..];
    }
  }

  ghost predicate CountInv(m: Machine, start: nat, n: nat) {
    && OutcomeInv(m)
    && |m.paths| == n
    && OneOutcome(m)
    && if m.closed then m.step <= 2 * n + 1 else m.step + start <= RankSum(m.paths)
  }

  lemma CountAttempt(m: Machine, input: Input, start: nat, n: nat)
    requires CountInv(m, start, n) && !m.closed && WellFormed(input)
    ensures CountInv(Attempt(m, input), start, n)
  {
    hide Update, OneOutcome, NoneSpent, OnlySpent, IsPath, DistinctNames, RankSum, Risen;
    OutcomeAttempt(m, input);
    RankSumBound(m.paths);
    if Update(m, input).Ok? {
      RiseAttempt(m, input);
      OneOutcomeStep(m, input);
      Accepted(m, input);
    }
  }

  lemma CountEvent(m: Machine, e: Event, start: nat, n: nat)
    requires CountInv(m, start, n) && !m.closed && Legal(m, e)
    ensures CountInv(Apply(m, e), start, n)
  {
    OutcomeEvent(m, e);
    RankSumBound(m.paths);
    match e
    case SetError(_) =>
    case DropTask =>
    case Scheduled(input) => CountAttempt(m, input, start, n);
    case Stated(wit) => CountAttempt(Record(m, wit), InputOf(wit), start, n);
  }

  lemma {:induction false} CountTrace(m: Machine, es: seq<Event>, last: Machine, start: nat, n: nat)
    requires OpenTrace(m, es, last) && CountInv(m, start, n)
    ensures CountInv(last, start, n)
    decreases |es|
  {
    if es != [] {
      CountEvent(m, es[0], start, n);
      CountTrace(Apply(m, es[0]), es[1..], last, start, n);
    }
  }

  /** With n paths, no run makes more than 2n + 1 commits up to and including the first
      that closes the machine, and at most 2n while it stays open; and the machine that this
      commit leaves has one outcome. */
  lemma BoundedCommits(c: Config, rs: seq<Request>) returns (k: nat, mid: Machine)
    requires Run(c, rs).Returns? && Distinct(c.pathnames)
    ensures var es := RunEvents(c, rs);
            && k <= |es| && OpenTrace(InitVm(c).value, es[..k], mid) && Trace(mid, es[k..], Run(c, rs).value)
            && (k == |es| || mid.closed)
    ensures mid.step <= 2 * |c.pathnames| + if mid.closed then 1 else 0
    ensures OneOutcome(mid)
  {
    var init := InitVm(c).value;
    OutcomeInit(c);
    InitPathsShape(c.pathnames, c.programs);
    var es := ServeAllTrace(init, rs, _ => true);
    k, mid := OpenPart(init, es, Run(c, rs).value);
    assert CountInv(init, 0, |c.pathnames|);
    CountTrace(init, es[..k], mid, 0, |c.pathnames|);
    if !mid.closed {
      RankSumBound(mid.paths);
    }
  }
}
