/** Advancing the clock in two steps, on any queue: exactly when it is the same as advancing
    it in one. */
module Advances {
  import opened Basics
  import opened Labels
  import opened Sorting
  import opened Cvm
  import opened Traces
  import opened Schedules
  import opened Outcomes

  /* ---------- stamps in the chain ---------- */

  /** Some commit after the first `n` is stamped no later than `a`. */
  predicate EarlyLink(h: Head, n: nat, a: int) {
    Length(h) > n && (h.stamp <= a || EarlyLink(h.prev, n, a))
  }

  lemma {:induction false} EarlyLinkLength(h: Head, n: nat, a: int)
    requires Length(h) <= n
    ensures !EarlyLink(h, n, a)
  {
  }

  /** An input makes one link with its own stamp, or changes nothing. */
  lemma AttemptLink(m: Machine, input: Input)
    ensures if Update(m, input).Ok? then
              var h := Attempt(m, input).head;
              h.Link? && h.prev == m.head && h.stamp == input.stamp && Length(h) == Length(m.head) + 1
            else
              Attempt(m, input) == m
  {
  }

  lemma {:induction false} InputsKeepEarly(m: Machine, inputs: seq<Input>, n: nat, a: int)
    requires EarlyLink(m.head, n, a)
    ensures EarlyLink(RunInputs(m, inputs).head, n, a)
    decreases |inputs|
  {
    hide Update;
    if inputs != [] {
      AttemptLink(m, inputs[0]);
      InputsKeepEarly(Attempt(m, inputs[0]), inputs[1..], n, a);
    }
  }

  lemma {:induction false} DueKeepsEarly(m: Machine, due: seq<Task>, n: nat, a: int)
    requires EarlyLink(m.head, n, a)
    ensures EarlyLink(RunDue(m, due).head, n, a)
    decreases |due|
  {
    hide RunInputs, TaskInputs;
    if due != [] {
      InputsKeepEarly(m, TaskInputs(m, due[0]), n, a);
      DueKeepsEarly(Shift(RunTask(m, due[0])), due[1..], n, a);
    }
  }

  lemma {:induction false} InputsStayLate(m: Machine, inputs: seq<Input>, n: nat, a: int)
    requires !EarlyLink(m.head, n, a) && forall i | i in inputs :: i.stamp > a
    ensures !EarlyLink(RunInputs(m, inputs).head, n, a)
    decreases |inputs|
  {
    hide Update;
    if inputs != [] {
      AttemptLink(m, inputs[0]);
      InputsStayLate(Attempt(m, inputs[0]), inputs[1..], n, a);
    }
  }

  lemma {:induction false} DueStaysLate(m: Machine, due: seq<Task>, n: nat, a: int)
    requires !EarlyLink(m.head, n, a) && forall t | t in due :: DueAt(m, t) > a
    ensures !EarlyLink(RunDue(m, due).head, n, a)
    decreases |due|
  {
    hide RunInputs, Inputs, Update;
    if due != [] {
      TaskStamps(m, due[0]);
      InputsStayLate(m, TaskInputs(m, due[0]), n, a);
      InputsFrame(m, TaskInputs(m, due[0]));
      var next := Shift(RunTask(m, due[0]));
      forall t | t in due[1..] ensures DueAt(next, t) > a {
        assert t in due;
      }
      DueStaysLate(next, due[1..], n, a);
    }
  }

  lemma TaskStamps(m: Machine, task: Task)
    ensures forall i | i in TaskInputs(m, task) :: i.stamp == DueAt(m, task)
  {
    InputsShape(AccessList(task.actions, VALID_ACTIONS), AccessList(task.paths, PathNames(m.paths)),
                DueAt(m, task), MachineId(m.vmid));
  }

  /** Inputs stamped no later than `a` leave such a commit, or nothing at all. */
  lemma {:induction false} InputsEarlyOrNone(m: Machine, inputs: seq<Input>, a: int)
    requires forall i | i in inputs :: i.stamp <= a
    ensures RunInputs(m, inputs) == m || EarlyLink(RunInputs(m, inputs).head, Length(m.head), a)
    decreases |inputs|
  {
    hide Update;
    if inputs != [] {
      var next := Attempt(m, inputs[0]);
      AttemptLink(m, inputs[0]);
      if Update(m, inputs[0]).Ok? {
        InputsKeepEarly(next, inputs[1..], Length(m.head), a);
      } else {
        InputsEarlyOrNone(m, inputs[1..], a);
      }
    }
  }

  lemma {:induction false} DueEarlyOrNone(m: Machine, due: seq<Task>, a: int)
    requires forall t | t in due :: DueAt(m, t) <= a
    ensures var n := RunDue(m, due);
            n == m.(tasks := n.tasks) || EarlyLink(n.head, Length(m.head), a)
    decreases |due|
  {
    hide RunInputs, Inputs, Update;
    if due != [] {
      var next := Shift(RunTask(m, due[0]));
      TaskStamps(m, due[0]);
      InputsEarlyOrNone(m, TaskInputs(m, due[0]), a);
      InputsFrame(m, TaskInputs(m, due[0]));
      forall t | t in due[1..] ensures DueAt(next, t) <= a {
        assert t in due;
      }
      if EarlyLink(next.head, Length(m.head), a) {
        DueKeepsEarly(next, due[1..], Length(m.head), a);
      } else {
        DueEarlyOrNone(next, due[1..], a);
      }
    }
  }

  /* ---------- the queue behind the tasks being run does not matter ---------- */

  lemma AttemptIgnoresTasks(m: Machine, n: Machine, input: Input)
    requires n == m.(tasks := n.tasks)
    ensures Attempt(n, input) == Attempt(m, input).(tasks := n.tasks)
    ensures Stops(n, input) <==> Stops(m, input)
  {
    hide OutputText, StatusAfter, RunPathAction, FindPath;
    if input.action != "close" && input.path.Some? && FindPath(m.paths, input.path.value) < |m.paths| {
      var i := FindPath(m.paths, input.path.value);
      var ended := RunPathAction(input.action, m.paths[i].state, m.status);
      assert ended.Ok? || ended.Err? || ended.Fault?;
    }
  }

  lemma {:induction false} InputsIgnoreTasks(m: Machine, n: Machine, inputs: seq<Input>)
    requires n == m.(tasks := n.tasks)
    ensures RunInputs(n, inputs) == RunInputs(m, inputs).(tasks := n.tasks)
    decreases |inputs|
  {
    hide Update, Attempt, Stops;
    if inputs != [] {
      AttemptIgnoresTasks(m, n, inputs[0]);
      InputsIgnoreTasks(Attempt(m, inputs[0]), Attempt(n, inputs[0]), inputs[1..]);
    }
  }

  lemma {:induction false} DueIgnoresTasks(m: Machine, n: Machine, due: seq<Task>)
    requires n == m.(tasks := n.tasks) && |due| <= |m.tasks| && |due| <= |n.tasks|
    ensures |m.tasks| - |RunDue(m, due).tasks| == |n.tasks| - |RunDue(n, due).tasks|
    decreases |due|
  {
    hide RunInputs, Inputs, Update;
    if due != [] {
      InputsIgnoreTasks(m, n, TaskInputs(m, due[0]));
      InputsFrame(m, TaskInputs(m, due[0]));
      DueIgnoresTasks(Shift(RunTask(m, due[0])), Shift(RunTask(n, due[0])), due[1..]);
    }
  }

  /* ---------- the due tasks of an ordered queue ---------- */

  /** From `from` on, the tasks before `end` are due by the stop time and the others are not. */
  predicate Boundary(m: Machine, tasks: seq<Task>, stopAt: int, from: nat, end: nat) {
    && from <= end <= |tasks|
    && (forall j | from <= j < end :: DueAt(m, tasks[j]) <= stopAt)
    && (forall j | end <= j < |tasks| :: stopAt < DueAt(m, tasks[j]))
  }

  /** Behind the stale tasks the due ones are a prefix. */
  lemma DueLive(m: Machine, tasks: seq<Task>, stopAt: int, i: nat)
    requires Ordered(tasks) && i <= |tasks| && NoneStale(m, tasks[i..])
    requires forall j | 0 <= j < i :: DueAt(m, tasks[j]) < m.updatedAt
    ensures var end := i + |Due(m, tasks, stopAt)|;
            Boundary(m, tasks, stopAt, i, end) && end <= |tasks| && Due(m, tasks, stopAt) == tasks[i..end]
  {
    hide Due, NotDue, NoneStale;
    var live := tasks[i..];
    assert Ordered(live);
    SplitStale(m, tasks, stopAt, i);
    DuePrefix(m, live, stopAt);
    hide Ordered;
    var k := |Due(m, tasks, stopAt)|;
    assert live[..k] == tasks[i..i + k];
    assert forall j | i <= j < |tasks| :: tasks[j] == live[j - i];
  }

  lemma OneBoundary(m: Machine, tasks: seq<Task>, stopAt: int, from: nat, x: nat, y: nat)
    requires Boundary(m, tasks, stopAt, from, x) && Boundary(m, tasks, stopAt, from, y)
    ensures x == y
  {
    assert x < |tasks| ==> stopAt < DueAt(m, tasks[x]);
    assert y < |tasks| ==> stopAt < DueAt(m, tasks[y]);
  }

  lemma OrderedSuffix(m: Machine, tasks: seq<Task>, k: nat, i: nat)
    requires Ordered(tasks) && k <= |tasks| && i <= |tasks| && NoneStale(m, tasks[i..])
    requires forall j | 0 <= j < i :: DueAt(m, tasks[j]) < m.updatedAt
    ensures var stale := if k < i then i - k else 0;
            && Ordered(tasks[k..]) && stale <= |tasks[k..]| && NoneStale(m, tasks[k..][stale..])
            && forall j | 0 <= j < stale :: DueAt(m, tasks[k..][j]) < m.updatedAt
  {
    var (stale, left) := (if k < i then i - k else 0, tasks[k..]);
    forall t | t in left[stale..] ensures m.updatedAt <= DueAt(m, t) {
      var j :| 0 <= j < |left[stale..]| && left[stale..][j] == t;
      assert tasks[i..][k + stale + j - i] == t;
    }
  }

  /** What is due at `b` once the first `k` tasks were dropped. */
  lemma DueDropped(m: Machine, tasks: seq<Task>, b: int, i: nat, k: nat)
    requires Ordered(tasks) && i <= |tasks| && NoneStale(m, tasks[i..])
    requires forall j | 0 <= j < i :: DueAt(m, tasks[j]) < m.updatedAt
    requires k <= |Due(m, tasks, b)|
    ensures var (from, end) := (if k < i then i else k, i + |Due(m, tasks, b)|);
            from <= end <= |tasks| && Due(m, tasks[k..], b) == tasks[from..end]
  {
    hide Due, Ordered, NoneStale, DueAt, Boundary;
    var (stale, end) := (if k < i then i - k else 0, i + |Due(m, tasks, b)|);
    DueLive(m, tasks, b, i);
    OrderedSuffix(m, tasks, k, i);
    DueLive(m, tasks[k..], b, stale);
    SameEnd(m, tasks, b, k, i, stale, stale + |Due(m, tasks[k..], b)|, end);
  }

  lemma SameEnd(m: Machine, tasks: seq<Task>, stopAt: int, k: nat, i: nat, from: nat, x: nat, end: nat)
    requires k <= |tasks| && Boundary(m, tasks[k..], stopAt, from, x)
    requires i <= k + from <= end && Boundary(m, tasks, stopAt, i, end)
    ensures x <= |tasks[k..]| && end <= |tasks| && tasks[k..][from..x] == tasks[k + from..end]
  {
    OneBoundary(m, tasks, stopAt, k + from, k + x, end);
  }

  /** Two stop times, one queue: the later one adds what lies between. */
  lemma DueTwice(m: Machine, tasks: seq<Task>, a: int, b: int, i: nat)
    requires Ordered(tasks) && i <= |tasks| && NoneStale(m, tasks[i..]) && a < b
    requires forall j | 0 <= j < i :: DueAt(m, tasks[j]) < m.updatedAt
    ensures var (k, l) := (|Due(m, tasks, a)|, |Due(m, tasks, b)|);
            && k <= l && i + l <= |tasks|
            && Due(m, tasks, a) == tasks[i..i + k] && Due(m, tasks, b) == tasks[i..i + l]
            && (forall j | i <= j < i + k :: DueAt(m, tasks[j]) <= a)
            && (forall j | i + k <= j < i + l :: DueAt(m, tasks[j]) > a)
  {
    hide Due, Ordered, NoneStale;
    DueLive(m, tasks, a, i);
    DueLive(m, tasks, b, i);
    var l := |Due(m, tasks, b)|;
    assert i + l < |tasks| ==> b < DueAt(m, tasks[i + l]);
  }

  /** What the queue still owes at `b` after as many tasks were dropped as were due at `a`: the
      tasks due between the two times, and before them those that already ran in the place of
      the stale tasks that were dropped. */
  lemma DueAgain(m: Machine, tasks: seq<Task>, a: int, b: int, i: nat) returns (extra: seq<Task>, rest: seq<Task>)
    requires Ordered(tasks) && i <= |tasks| && NoneStale(m, tasks[i..]) && a < b
    requires forall j | 0 <= j < i :: DueAt(m, tasks[j]) < m.updatedAt
    ensures var k := |Due(m, tasks, a)|;
            && k + |extra| + |rest| <= |tasks|
            && Due(m, tasks[k..], b) == extra + rest
            && Due(m, tasks, b) == Due(m, tasks, a) + rest
            && |extra| == (if k < i then k else i)
            && (forall t | t in extra :: DueAt(m, t) <= a)
            && (forall t | t in rest :: DueAt(m, t) > a)
  {
    hide Due, Ordered, NoneStale, DueAt;
    DueTwice(m, tasks, a, b, i);
    var (k, l) := (|Due(m, tasks, a)|, |Due(m, tasks, b)|);
    DueDropped(m, tasks, b, i, k);
    var from := if k < i then i else k;
    extra, rest := tasks[from..i + k], tasks[i + k..i + l];
  }

  /* ---------- two advances ---------- */

  /** Whether advancing to `a` and then to `b` is one advance, as it can be told beforehand:
      the first run ends in an output or has nothing to do, or no task of the queue is stale,
      or the second has nothing left to do and stops no later than the first. */
  predicate Composes(m: Machine, a: int, b: int) {
    || m.output.Some?
    || RunSchedule(m, a).output.Some?
    || Due(m, m.tasks, a) == []
    || NoneStale(m, m.tasks)
    || (b <= a && var k := |Due(m, m.tasks, a)|; k <= |m.tasks| && Due(m, m.tasks[k..], b) == [])
  }

  /** A stop that is no later: the second run must find nothing. */
  lemma AdvanceBack(m: Machine, a: int, b: int)
    requires m.output.None? && RunSchedule(m, a).output.None? && b <= a
    ensures var k := |Due(m, m.tasks, a)|;
            && k <= |m.tasks|
            && (RunSchedule(RunSchedule(m, a), b) == RunSchedule(m, a) <==> Due(m, m.tasks[k..], b) == [])
  {
    hide RunDue, Due;
    var (due, first) := (Due(m, m.tasks, a), RunSchedule(m, a));
    DueLength(m, m.tasks, a);
    RunDueFrame(m, due);
    DueFrame(m, first, first.tasks, b);
    DueLength(first, first.tasks, b);
    RunDueFrame(first, Due(first, first.tasks, b));
    RunNothing(first);
  }

  /** A later stop with stale tasks in front: tasks run again, and either leave a commit that is
      too early for the single run, or use up more of the queue. */
  lemma AdvanceRepeats(m: Machine, a: int, b: int)
    requires Ordered(m.tasks) && !NoneStale(m, m.tasks) && Due(m, m.tasks, a) != []
    requires m.output.None? && RunSchedule(m, a).output.None? && a < b
    ensures RunSchedule(RunSchedule(m, a), b) != RunSchedule(m, b)
  {
    hide RunDue, Due, NoneStale, Ordered, EarlyLink;
    var (due, first) := (Due(m, m.tasks, a), RunSchedule(m, a));
    var i := FirstLive(m, m.tasks);
    var extra, rest := DueAgain(m, m.tasks, a, b, i);
    DueLength(m, m.tasks, a);
    RunDueFrame(m, due);
    DueFrame(m, first, first.tasks, b);
    RunDueSplit(m, due, rest);
    RunDueSplit(first, extra, rest);
    Repeated(first, extra, rest, a);
  }

  lemma Repeated(first: Machine, extra: seq<Task>, rest: seq<Task>, a: int)
    requires extra != [] && |extra| + |rest| <= |first.tasks| && first.output.None?
    requires forall t | t in extra :: DueAt(first, t) <= a
    requires forall t | t in rest :: DueAt(first, t) > a
    ensures RunDue(first, extra).output.Some? ==> RunDue(first, extra) != RunDue(first, rest)
    ensures RunDue(first, extra).output.None? ==> RunDue(RunDue(first, extra), rest) != RunDue(first, rest)
  {
    hide RunDue, EarlyLink;
    var (n, again) := (Length(first.head), RunDue(first, extra));
    DueEarlyOrNone(first, extra, a);
    RunDueFrame(first, extra);
    if EarlyLink(again.head, n, a) {
      EarlyLinkLength(first.head, n, a);
      DueKeepsEarly(again, rest, n, a);
      DueStaysLate(first, rest, n, a);
    } else {
      DueIgnoresTasks(first, again, rest);
    }
  }

  /** Two advances are one, exactly. */
  lemma ComposesExactly(m: Machine, a: int, b: int)
    requires Ordered(m.tasks)
    ensures EvalSchedule(EvalSchedule(m, a), b) == EvalSchedule(m, if a < b then b else a) <==> Composes(m, a, b)
  {
    hide RunDue, Due, NoneStale, Ordered;
    if m.output.None? {
      if NoneStale(m, m.tasks) {
        SchedulesCompose(m, a, b);
      } else if RunSchedule(m, a).output.Some? || Due(m, m.tasks, a) == [] {
        ComposesEarly(m, a, b);
      } else if b <= a {
        AdvanceBack(m, a, b);
      } else {
        AdvanceRepeats(m, a, b);
      }
    }
  }

  /** A first run that ends in an output, or does nothing. */
  lemma ComposesEarly(m: Machine, a: int, b: int)
    requires Ordered(m.tasks) && m.output.None?
    requires RunSchedule(m, a).output.Some? || Due(m, m.tasks, a) == []
    ensures EvalSchedule(EvalSchedule(m, a), b) == EvalSchedule(m, if a < b then b else a)
  {
    hide RunDue, Due, NoneStale, Ordered;
    RunNothing(m);
    if a < b {
      var i := FirstLive(m, m.tasks);
      var _, rest := DueAgain(m, m.tasks, a, b, i);
      RunDueSplit(m, Due(m, m.tasks, a), rest);
    } else if RunSchedule(m, a).output.None? {
      DueOfEarlier(m, m.tasks, a, b);
    }
  }

  lemma {:induction false} DueOfEarlier(m: Machine, tasks: seq<Task>, a: int, b: int)
    requires b <= a && Due(m, tasks, a) == []
    ensures Due(m, tasks, b) == []
  {
    if tasks != [] {
      DueOfEarlier(m, tasks[1..], a, b);
    }
  }

  /* ---------- on every reachable machine ---------- */

  /** The queue of a reachable machine is in order, whatever the schedule. */
  lemma RunsStayOrdered(c: Config, rs: seq<Request>)
    requires Run(c, rs).Returns?
    ensures Ordered(Run(c, rs).value.tasks)
  {
    InitOrdered(c.schedule);
    forall m: Machine, e | Ordered(m.tasks) && Legal(m, e) ensures Ordered(Apply(m, e).tasks) {
      match e {
        case SetError(_) =>
        case DropTask =>
        case Scheduled(input) => AttemptFrame(m, input);
        case Stated(wit) => ProgramFrame(m, wit);
      }
    }
    RunInvariant((m: Machine) => Ordered(m.tasks), _ => true, c, rs);
  }

  /** On every machine a run can reach, two advances are one exactly when `Composes` says so;
      with no timer below zero they always are. */
  lemma AdvancesCompose(c: Config, rs: seq<Request>, a: int, b: int)
    requires Run(c, rs).Returns?
    ensures var m := Run(c, rs).value;
            && (ServeAll(m, [Advance(a), Advance(b)]) == ServeAll(m, [Advance(if a < b then b else a)])
                <==> Composes(m, a, b))
            && ((forall t | t in c.schedule :: t.timer >= 0) ==> Composes(m, a, b))
  {
    var m := Run(c, rs).value;
    RunsStayOrdered(c, rs);
    ComposesExactly(m, a, b);
    if forall t | t in c.schedule :: t.timer >= 0 {
      NeverLate(c, rs, a);
    }
    var last := if a < b then b else a;
    assert [Advance(a), Advance(b)][1..] == [Advance(b)] && [Advance(b)][1..] == [] && [Advance(last)][1..] == [];
    assert ServeAll(EvalSchedule(m, a), [Advance(b)]) == Returns(EvalSchedule(EvalSchedule(m, a), b));
    assert ServeAll(m, [Advance(last)]) == Returns(EvalSchedule(m, last));
  }

  const CLOSE_LATER := Task(5, "close", "payout")

  /** A proposal with a timer below zero, which its checks let through. */
  const STALE_SCHEDULE :=
    Config(START, "cvm", START + 100, ["payout"], [], [Task(-1, "lock", "payout"), CLOSE_LATER], VMID)

  /** Its stale task is never due, `shift` drops it in the place of the task behind it, and a
      second advance closes the closed machine again. */
  lemma StaleTaskRepeats()
    ensures var once := Run(STALE_SCHEDULE, [Advance(START + 9)]);
            var twice := Run(STALE_SCHEDULE, [Advance(START + 9), Advance(START + 9)]);
            once.Returns? && once.value.step == 1 && twice.Returns? && twice.value.step == 2
  {
    var tasks := STALE_SCHEDULE.schedule;
    assert tasks[1..] == [CLOSE_LATER] && [CLOSE_LATER][1..] == [];
    assert Sort(ByTimer, [CLOSE_LATER]) == [CLOSE_LATER];
    OnePathInit(STALE_SCHEDULE);
    var m := InitVm(STALE_SCHEDULE).value;
    assert Due(m, [CLOSE_LATER], START + 9) == [CLOSE_LATER];
    assert !IsDue(m, tasks[0], START + 9) && m.tasks == tasks;
    assert Due(m, m.tasks, START + 9) == [CLOSE_LATER];
    CloseTask(m);
    var n := RunSchedule(m, START + 9);
    assert n.tasks == [CLOSE_LATER];
    assert Due(n, n.tasks, START + 9) == [CLOSE_LATER];
    CloseTask(n);
    assert [Advance(START + 9), Advance(START + 9)][1..] == [Advance(START + 9)] && [Advance(START + 9)][1..] == [];
    assert ServeAll(m, [Advance(START + 9)]) == Returns(n);
    assert ServeAll(n, [Advance(START + 9)]) == Returns(RunSchedule(n, START + 9));
  }

  lemma CloseTask(m: Machine)
    requires m.commitAt <= DueAt(m, CLOSE_LATER) < m.expiresAt && m.output.None?
    ensures var n := RunDue(m, [CLOSE_LATER]);
            && n.step == m.step + 1 && n.commitAt == DueAt(m, CLOSE_LATER) && n.output.None?
            && n.activeAt == m.activeAt && n.updatedAt == m.updatedAt && n.expiresAt == m.expiresAt
            && n.tasks == Shift(m).tasks
  {
    SingleInput(m, CLOSE_LATER);
    var next := Shift(RunTask(m, CLOSE_LATER));
    assert [CLOSE_LATER][1..] == [] && RunDue(next, []) == next;
  }
}
