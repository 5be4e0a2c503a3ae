/** The task queue: what each call consumes, that no task is ever late, and that
    advancing the clock in two steps is the same as advancing it in one. */
module Schedules {
  import opened Basics
  import opened Labels
  import opened Sorting
  import opened Cvm
  import opened Traces

  /** No task lies before the machine's activation, where `get_tasks` never looks. */
  predicate NoneStale(m: Machine, tasks: seq<Task>) {
    forall t | t in tasks :: m.updatedAt <= DueAt(m, t)
  }

  predicate Ordered(tasks: seq<Task>) {
    forall i, j | 0 <= i < j < |tasks| :: tasks[i].timer <= tasks[j].timer
  }

  predicate NoneBefore(m: Machine, tasks: seq<Task>, stamp: int) {
    forall t | t in tasks :: stamp <= DueAt(m, t)
  }

  /** What remains once the due tasks are taken out. */
  function NotDue(m: Machine, tasks: seq<Task>, stopAt: int): seq<Task> {
    if tasks == [] then []
    else (if IsDue(m, tasks[0], stopAt) then [] else [tasks[0]]) + NotDue(m, tasks[1..], stopAt)
  }

  ghost predicate QueueInv(m: Machine) {
    Ordered(m.tasks) && NoneStale(m, m.tasks) && NoneBefore(m, m.tasks, m.commitAt)
  }

  /* ---------- the due tasks ---------- */

  lemma {:induction false} NothingDue(m: Machine, tasks: seq<Task>, stopAt: int)
    requires forall t | t in tasks :: !IsDue(m, t, stopAt)
    ensures Due(m, tasks, stopAt) == [] && NotDue(m, tasks, stopAt) == tasks
  {
    if tasks != [] {
      NothingDue(m, tasks[1..], stopAt);
    }
  }

  /** In a sorted queue without stale tasks the due tasks are a prefix. */
  lemma {:induction false} DuePrefix(m: Machine, tasks: seq<Task>, stopAt: int)
    requires Ordered(tasks) && NoneStale(m, tasks)
    ensures var k := |Due(m, tasks, stopAt)|;
            && k <= |tasks|
            && Due(m, tasks, stopAt) == tasks[..k]
            && NotDue(m, tasks, stopAt) == tasks[k..]
            && (forall i | 0 <= i < k :: DueAt(m, tasks[i]) <= stopAt)
            && (forall i | k <= i < |tasks| :: stopAt < DueAt(m, tasks[i]))
  {
    if tasks != [] {
      if DueAt(m, tasks[0]) <= stopAt {
        DuePrefix(m, tasks[1..], stopAt);
      } else {
        forall t | t in tasks ensures stopAt < DueAt(m, t) {
          var i :| 0 <= i < |tasks| && tasks[i] == t;
          assert tasks[0].timer <= tasks[i].timer;
        }
        NothingDue(m, tasks, stopAt);
      }
    }
  }

  lemma {:induction false} DueFrame(m: Machine, n: Machine, tasks: seq<Task>, stopAt: int)
    requires m.activeAt == n.activeAt && m.updatedAt == n.updatedAt
    ensures Due(m, tasks, stopAt) == Due(n, tasks, stopAt)
  {
    if tasks != [] {
      DueFrame(m, n, tasks[1..], stopAt);
    }
  }

  lemma {:induction false} DueLength(m: Machine, tasks: seq<Task>, stopAt: int)
    ensures |Due(m, tasks, stopAt)| <= |tasks|
    ensures (forall t | t in Due(m, tasks, stopAt) :: IsDue(m, t, stopAt))
  {
    if tasks != [] {
      DueLength(m, tasks[1..], stopAt);
    }
  }

  /* ---------- running them ---------- */

  lemma {:induction false} RunDueFrame(m: Machine, due: seq<Task>)
    requires |due| <= |m.tasks|
    ensures var n := RunDue(m, due);
            && n.vmid == m.vmid && n.activeAt == m.activeAt && n.updatedAt == m.updatedAt && n.error == m.error
            && |m.tasks| - |due| <= |n.tasks| <= |m.tasks|
            && n.tasks == m.tasks[|m.tasks| - |n.tasks|..]
            && (n.output.None? || due == [] ==> |n.tasks| == |m.tasks| - |due|)
            && (due != [] ==> |n.tasks| < |m.tasks|)
    decreases |due|
  {
    hide RunInputs, TaskInputs;
    if due != [] {
      InputsFrame(m, TaskInputs(m, due[0]));
      var next := Shift(RunTask(m, due[0]));
      if next.output.None? {
        RunDueFrame(next, due[1..]);
      }
    }
  }

  lemma {:induction false} RunDueSplit(m: Machine, xs: seq<Task>, ys: seq<Task>)
    requires m.output.None?
    ensures RunDue(m, xs + ys)
         == if RunDue(m, xs).output.Some? then RunDue(m, xs) else RunDue(RunDue(m, xs), ys)
    decreases |xs|
  {
    if xs == [] {
      assert xs + ys == ys;
    } else {
      assert (xs + ys)[1..] == xs[1..] + ys;
      var next := Shift(RunTask(m, xs[0]));
      if next.output.None? {
        RunDueSplit(next, xs[1..], ys);
      }
    }
  }

  /** Everything a call consumes, exactly: a run that ends without an output takes the due
      tasks out of the queue and nothing else, unless both due and stale tasks were there,
      and then `shift` has dropped stale tasks in the place of due ones. */
  lemma QueueConsumed(m: Machine, stopAt: int)
    requires Ordered(m.tasks) && RunSchedule(m, stopAt).output.None?
    ensures RunSchedule(m, stopAt).tasks == NotDue(m, m.tasks, stopAt)
       <==> Due(m, m.tasks, stopAt) == [] || NoneStale(m, m.tasks)
  {
    var due := Due(m, m.tasks, stopAt);
    DueLength(m, m.tasks, stopAt);
    RunDueFrame(m, due);
    assert RunSchedule(m, stopAt).tasks == m.tasks[|due|..];
    if due == [] {
      NotDueOfNone(m, m.tasks, stopAt);
    } else if NoneStale(m, m.tasks) {
      DuePrefix(m, m.tasks, stopAt);
    } else {
      StaleStays(m, m.tasks, stopAt);
    }
  }

  lemma {:induction false} NotDueOfNone(m: Machine, tasks: seq<Task>, stopAt: int)
    requires Due(m, tasks, stopAt) == []
    ensures NotDue(m, tasks, stopAt) == tasks
  {
    if tasks != [] {
      NotDueOfNone(m, tasks[1..], stopAt);
    }
  }

  /** The first task is stale and some task is due: dropping from the front misses. */
  lemma StaleStays(m: Machine, tasks: seq<Task>, stopAt: int)
    requires Ordered(tasks) && !NoneStale(m, tasks)
    requires Due(m, tasks, stopAt) != []
    ensures |Due(m, tasks, stopAt)| <= |tasks|
    ensures NotDue(m, tasks, stopAt) != tasks[|Due(m, tasks, stopAt)|..]
  {
    DueLength(m, tasks, stopAt);
    var k := |Due(m, tasks, stopAt)|;
    var i := FirstLive(m, tasks);
    SplitStale(m, tasks, stopAt, i);
    var live := tasks[i..];
    DuePrefix(m, live, stopAt);
    var rest := tasks[k..];
    assert NotDue(m, tasks, stopAt)[i - 1] == tasks[i - 1];
    assert rest[i - 1] == tasks[k + i - 1] == live[k - 1];
    assert IsDue(m, live[k - 1], stopAt);
  }

  /** The index of the first task that is not stale. */
  lemma {:induction false} FirstLive(m: Machine, tasks: seq<Task>) returns (i: nat)
    requires Ordered(tasks)
    ensures i <= |tasks| && NoneStale(m, tasks[i..])
    ensures forall j | 0 <= j < i :: DueAt(m, tasks[j]) < m.updatedAt
    ensures !NoneStale(m, tasks) ==> i > 0
  {
    i := 0;
    while i < |tasks| && DueAt(m, tasks[i]) < m.updatedAt
      invariant i <= |tasks|
      invariant forall j | 0 <= j < i :: DueAt(m, tasks[j]) < m.updatedAt
    {
      i := i + 1;
    }
    forall t | t in tasks[i..] ensures m.updatedAt <= DueAt(m, t) {
      var j :| i <= j < |tasks| && tasks[j] == t;
      assert tasks[i].timer <= tasks[j].timer;
    }
    assert tasks[0..] == tasks;
  }

  lemma {:induction false} SplitStale(m: Machine, tasks: seq<Task>, stopAt: int, i: nat)
    requires i <= |tasks| && forall j | 0 <= j < i :: DueAt(m, tasks[j]) < m.updatedAt
    ensures Due(m, tasks, stopAt) == Due(m, tasks[i..], stopAt)
    ensures NotDue(m, tasks, stopAt) == tasks[..i] + NotDue(m, tasks[i..], stopAt)
  {
    if i == 0 {
      assert tasks[0..] == tasks;
    } else {
      SplitStale(m, tasks[1..], stopAt, i - 1);
      assert tasks[1..][i - 1..] == tasks[i..];
      assert tasks[..i] == [tasks[0]] + tasks[1..][..i - 1];
    }
  }

  /** While no task is stale, a call runs exactly the tasks due by its stop time, in queue
      order, and takes exactly those out; an output ends it early. */
  lemma ScheduleStep(m: Machine, stopAt: int)
    requires Ordered(m.tasks) && NoneStale(m, m.tasks)
    ensures var n, due := RunSchedule(m, stopAt), Due(m, m.tasks, stopAt);
            && |due| <= |m.tasks| && due == m.tasks[..|due|]
            && |n.tasks| <= |m.tasks| && n.tasks == m.tasks[|m.tasks| - |n.tasks|..]
            && Ordered(n.tasks) && NoneStale(n, n.tasks)
            && (n.output.None? ==> n.tasks == NotDue(m, m.tasks, stopAt))
            && (n.output.None? ==> forall t | t in n.tasks :: stopAt < DueAt(n, t))
  {
    hide Due, NotDue, RunDue;
    var due := Due(m, m.tasks, stopAt);
    DuePrefix(m, m.tasks, stopAt);
    RunDueFrame(m, due);
    QueueSuffix(m, RunDue(m, due), |m.tasks| - |RunDue(m, due).tasks|);
  }

  /** A suffix of a good queue is a good queue. */
  lemma QueueSuffix(m: Machine, n: Machine, j: nat)
    requires Ordered(m.tasks) && NoneStale(m, m.tasks)
    requires j <= |m.tasks| && n.tasks == m.tasks[j..]
    requires n.activeAt == m.activeAt && n.updatedAt == m.updatedAt
    ensures Ordered(n.tasks) && NoneStale(n, n.tasks)
  {
    forall t | t in n.tasks ensures n.updatedAt <= DueAt(n, t) {
      var i :| j <= i < |m.tasks| && m.tasks[i] == t;
      assert DueAt(m, m.tasks[i]) == DueAt(n, t);
    }
  }

  /** The prefix of due tasks is fixed by where the stop time falls. */
  lemma DueIsPrefix(m: Machine, tasks: seq<Task>, stopAt: int, k: nat)
    requires Ordered(tasks) && NoneStale(m, tasks)
    requires k <= |tasks| && (k > 0 ==> DueAt(m, tasks[k - 1]) <= stopAt)
    requires k < |tasks| ==> stopAt < DueAt(m, tasks[k])
    ensures Due(m, tasks, stopAt) == tasks[..k]
  {
    DuePrefix(m, tasks, stopAt);
  }

  /** The tasks due by `b` once those due by `a` are gone. */
  lemma DueRest(m: Machine, tasks: seq<Task>, a: int, b: int, k: nat, l: nat)
    requires Ordered(tasks) && NoneStale(m, tasks)
    requires k == |Due(m, tasks, a)| && l == |Due(m, tasks, b)|
    ensures k <= |tasks| && l <= |tasks| && (a < b ==> k <= l)
    ensures Due(m, tasks[k..], b) == if a < b then tasks[k..l] else []
  {
    hide Due, NotDue;
    DuePrefix(m, tasks, a);
    DuePrefix(m, tasks, b);
    var rest := tasks[k..];
    if a < b {
      assert k > 0 ==> DueAt(m, tasks[k - 1]) <= a;
      DueIsPrefix(m, rest, b, l - k);
      assert rest[..l - k] == tasks[k..l];
    } else {
      DueIsPrefix(m, rest, b, 0);
    }
  }

  /** What the second of two advances still has to run. */
  lemma DueAfter(m: Machine, first: Machine, a: int, b: int, dueA: seq<Task>, dueB: seq<Task>)
    requires Ordered(m.tasks) && NoneStale(m, m.tasks)
    requires dueA == Due(m, m.tasks, a) && dueB == Due(m, m.tasks, b)
    requires first.activeAt == m.activeAt && first.updatedAt == m.updatedAt
    ensures |dueA| <= |m.tasks|
    ensures a < b ==> dueA <= dueB
    ensures first.tasks == m.tasks[|dueA|..] ==>
              Due(first, first.tasks, b) == if a < b then dueB[|dueA|..] else []
  {
    DuePrefix(m, m.tasks, a);
    DuePrefix(m, m.tasks, b);
    DueRest(m, m.tasks, a, b, |dueA|, |dueB|);
    DueFrame(m, first, m.tasks[|dueA|..], b);
  }

  lemma RunNothing(m: Machine)
    ensures RunDue(m, []) == m
  {
  }

  /** Advancing to `a` and then to `b` is advancing to the later of the two. */
  lemma SchedulesCompose(m: Machine, a: int, b: int)
    requires Ordered(m.tasks) && NoneStale(m, m.tasks)
    ensures EvalSchedule(EvalSchedule(m, a), b) == EvalSchedule(m, if a < b then b else a)
  {
    hide Due, RunDue;
    if m.output.None? {
      var (dueA, dueB) := (Due(m, m.tasks, a), Due(m, m.tasks, b));
      var first := RunDue(m, dueA);
      DuePrefix(m, m.tasks, a);
      RunDueFrame(m, dueA);
      DueAfter(m, first, a, b, dueA, dueB);
      if a < b {
        assert dueB == dueA + dueB[|dueA|..];
        RunDueSplit(m, dueA, dueB[|dueA|..]);
      } else {
        RunNothing(first);
      }
    }
  }

  /* ---------- never late ---------- */

  /** Every input tried is stamped no earlier than the commits before it. */
  ghost predicate InputsOnTime(m: Machine, inputs: seq<Input>)
    decreases |inputs|
  {
    inputs != [] ==>
      && m.commitAt <= inputs[0].stamp
      && (!Stops(m, inputs[0]) ==> InputsOnTime(Attempt(m, inputs[0]), inputs[1..]))
  }

  ghost predicate DueOnTime(m: Machine, due: seq<Task>)
    decreases |due|
  {
    due != [] ==>
      && InputsOnTime(m, TaskInputs(m, due[0]))
      && var next := Shift(RunTask(m, due[0]));
         next.output.None? ==> DueOnTime(next, due[1..])
  }

  lemma AttemptClock(m: Machine, input: Input)
    ensures Attempt(m, input).commitAt == m.commitAt || Attempt(m, input).commitAt == input.stamp
  {
  }

  lemma {:induction false} InputsClock(m: Machine, inputs: seq<Input>, stamp: int)
    requires m.commitAt <= stamp && forall i | i in inputs :: i.stamp == stamp
    ensures InputsOnTime(m, inputs) && RunInputs(m, inputs).commitAt <= stamp
    decreases |inputs|
  {
    if inputs != [] {
      AttemptClock(m, inputs[0]);
      InputsClock(Attempt(m, inputs[0]), inputs[1..], stamp);
    }
  }

  /** Running the first task: its inputs are on time, and the queue behind it still is. */
  lemma TaskClock(m: Machine)
    requires QueueInv(m) && m.tasks != []
    ensures InputsOnTime(m, TaskInputs(m, m.tasks[0]))
    ensures var next := Shift(RunTask(m, m.tasks[0]));
            QueueInv(next) && next.tasks == m.tasks[1..]
  {
    hide Update, RunInputs;
    var task := m.tasks[0];
    assert task in m.tasks;
    InputsShape(AccessList(task.actions, VALID_ACTIONS), AccessList(task.paths, PathNames(m.paths)),
                DueAt(m, task), MachineId(m.vmid));
    InputsClock(m, TaskInputs(m, task), DueAt(m, task));
    InputsFrame(m, TaskInputs(m, task));
    var next := Shift(RunTask(m, task));
    forall t | t in next.tasks ensures t in m.tasks && DueAt(m, task) <= DueAt(next, t) {
      var i :| 0 < i < |m.tasks| && m.tasks[i] == t;
    }
  }

  lemma {:induction false} DueClock(m: Machine, k: nat)
    requires QueueInv(m) && k <= |m.tasks|
    ensures DueOnTime(m, m.tasks[..k]) && QueueInv(RunDue(m, m.tasks[..k]))
    decreases k
  {
    hide RunTask, Shift, TaskInputs, InputsOnTime, QueueInv;
    if k > 0 {
      var due := m.tasks[..k];
      var next := Shift(RunTask(m, m.tasks[0]));
      TaskClock(m);
      assert due[0] == m.tasks[0] && due[1..] == next.tasks[..k - 1];
      DueClock(next, k - 1);
    }
  }

  lemma ScheduleClock(m: Machine, stopAt: int)
    requires QueueInv(m)
    ensures DueOnTime(m, Due(m, m.tasks, stopAt)) && QueueInv(RunSchedule(m, stopAt))
  {
    DuePrefix(m, m.tasks, stopAt);
    DueClock(m, |Due(m, m.tasks, stopAt)|);
  }

  /** A statement's own commit cannot overtake the queue: the tasks up to its stamp ran first. */
  lemma ProgramClock(m: Machine, wit: Witness)
    requires QueueInv(m) && NoneBefore(m, m.tasks, wit.tmpl.stamp)
    ensures QueueInv(RunProgram(m, wit).0)
  {
    ProgramFrame(m, wit);
    if Loads(m, wit) {
      AttemptClock(Record(m, wit), InputOf(wit));
    }
  }

  lemma StepClock(m: Machine, wit: Witness)
    requires QueueInv(m) && m.output.None? && EvalStep(m, wit).Returns?
    ensures QueueInv(EvalStep(m, wit).value)
  {
    var ran := RunSchedule(m, wit.tmpl.stamp);
    ScheduleClock(m, wit.tmpl.stamp);
    if !ran.closed {
      var es := ScheduleTrace(m, wit.tmpl.stamp);
      TraceOutput(m, es, ran);
      ScheduleStep(m, wit.tmpl.stamp);
      ProgramClock(ran, wit);
      var n := RunProgram(ran, wit).0;
      assert QueueInv(n.(error := EvalStep(m, wit).value.error));
    }
  }

  lemma {:induction false} StackClock(m: Machine, stack: seq<Witness>)
    requires QueueInv(m) && m.output.None? && m.error.None? && EvalStack(m, stack).Returns?
    ensures QueueInv(EvalStack(m, stack).value)
    decreases |stack|
  {
    if stack != [] {
      StepClock(m, stack[0]);
      StepFrame(m, stack[0]);
      var next := EvalStep(m, stack[0]).value;
      if !next.closed && next.error.None? {
        StackClock(next, stack[1..]);
      }
    }
  }

  lemma {:induction false} ServeClock(m: Machine, rs: seq<Request>)
    requires QueueInv(m) && ServeAll(m, rs).Returns?
    ensures QueueInv(ServeAll(m, rs).value)
    decreases |rs|
  {
    if rs != [] {
      if m.output.None? {
        match rs[0]
        case Advance(stopAt) => ScheduleClock(m, stopAt);
        case Evaluate(stack) => StackClock(m.(error := None), Sort(ByStamp, stack));
      }
      ServeClock(Serve(m, rs[0]).value, rs[1..]);
    }
  }

  /** `init_tasks` leaves the queue in order. */
  lemma InitOrdered(schedule: seq<Task>)
    ensures Ordered(Sort(ByTimer, schedule))
  {
    assert TotalPreorder(ByTimer);
    SortSorts(ByTimer, schedule);
    var tasks := Sort(ByTimer, schedule);
    forall i, j | 0 <= i < j < |tasks| ensures tasks[i].timer <= tasks[j].timer {
      assert ByTimer(tasks[i], tasks[j]);
    }
  }

  /** Scheduled work is never late. On every machine a run can reach, whatever statements were
      submitted in between, the pending tasks are in order, none is stamped before the last
      commit, and no attempt a later call makes is stamped before the commits that precede it. */
  lemma NeverLate(c: Config, rs: seq<Request>, stopAt: int)
    requires Run(c, rs).Returns? && forall t | t in c.schedule :: t.timer >= 0
    ensures var m := Run(c, rs).value;
            && Ordered(m.tasks)
            && NoneStale(m, m.tasks)
            && NoneBefore(m, m.tasks, m.commitAt)
            && DueOnTime(m, Due(m, m.tasks, stopAt))
  {
    InitOrdered(c.schedule);
    SortMembers(ByTimer, c.schedule);
    ServeClock(InitVm(c).value, rs);
    ScheduleClock(Run(c, rs).value, stopAt);
  }

  /** Timers of at least zero are exactly what it takes: a schedule with another one starts out late. */
  lemma NeverLateExactly(c: Config)
    requires InitVm(c).Returns?
    ensures (forall rs | Run(c, rs).Returns? ::
               NoneBefore(Run(c, rs).value, Run(c, rs).value.tasks, Run(c, rs).value.commitAt))
       <==> forall t | t in c.schedule :: t.timer >= 0
  {
    if forall t | t in c.schedule :: t.timer >= 0 {
      forall rs | Run(c, rs).Returns?
        ensures NoneBefore(Run(c, rs).value, Run(c, rs).value.tasks, Run(c, rs).value.commitAt)
      {
        NeverLate(c, rs, 0);
      }
    } else {
      var t :| t in c.schedule && t.timer < 0;
      SortMembers(ByTimer, c.schedule);
      assert Run(c, []) == InitVm(c);
      assert DueAt(InitVm(c).value, t) < InitVm(c).value.commitAt;
    }
  }
}
