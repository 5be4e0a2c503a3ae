/** Why the head fixes the history only for timers of at least zero: one proposal, two runs,
    equal heads, and different outputs. */
module Forks {
  import opened Basics
  import opened Labels
  import opened Sorting
  import opened Cvm
  import opened Traces
  import opened Schedules
  import opened Outcomes
  import opened Ballots
  import opened Samples

  const STALE := Task(-1, "lock", "alpha")
  const FIRST := Task(5, "resolve", "alpha")
  const SECOND := Task(5, "resolve", "omega")
  const STOP := START + 5

  /** Three tasks that are never due, which `shift` drops in the place of the other two. */
  const FORKING := SoloProposal(["alpha", "omega"], [STALE, STALE, STALE, FIRST, SECOND])

  const DISPUTE := SoloStatement("dispute", Some("alpha"), STOP)

  /** The proposal's machine with both paths locked and these tasks left. */
  predicate Waiting(m: Machine, tasks: seq<Task>) {
    && SoloMachine(m) && m.store == [StoreEntry(ProgId(SOLO), [])] && m.tasks == tasks
    && m.paths == [PathEntry("alpha", PathState.Locked), PathEntry("omega", PathState.Locked)]
    && m.activeAt == m.updatedAt == m.commitAt == START && m.expiresAt == START + 100 && m.vmid == VMID
    && m.status.Init? && m.step == 0 && m.head == Genesis(VMID)
    && !m.closed && m.error.None? && m.output.None?
  }

  const DISPUTED_HEAD := Link(DISPUTE.wid, Genesis(VMID), "null", 1, STOP)

  predicate InDispute(m: Machine, tasks: seq<Task>) {
    && m.tasks == tasks
    && m.paths == [PathEntry("alpha", PathState.Disputed), PathEntry("omega", PathState.Locked)]
    && m.activeAt == m.updatedAt == START && m.commitAt == STOP && m.expiresAt == START + 100 && m.vmid == VMID
    && m.status.Disputed? && m.step == 1 && m.head == DISPUTED_HEAD
    && !m.closed && m.error.None? && m.output.None?
  }

  lemma Start()
    ensures InitVm(FORKING).Returns?
    ensures Waiting(InitVm(FORKING).value, FORKING.schedule)
  {
    SoloInit(FORKING);
    var tasks := FORKING.schedule;
    assert SortedBy(ByTimer, tasks);
    SortOfSorted(ByTimer, tasks);
  }

  /** The stale tasks in front do not matter for what is due. */
  lemma DueBehind(m: Machine, tasks: seq<Task>, k: nat)
    requires m.activeAt == m.updatedAt == START && k <= |tasks|
    requires forall j | 0 <= j < k :: tasks[j] == STALE
    requires forall t | t in tasks[k..] :: t.timer == 5
    ensures Due(m, tasks, STOP) == tasks[k..]
  {
    SplitStale(m, tasks, STOP, k);
    AllDue(m, tasks[k..]);
  }

  lemma {:induction false} AllDue(m: Machine, tasks: seq<Task>)
    requires m.activeAt == m.updatedAt == START && forall t | t in tasks :: t.timer == 5
    ensures Due(m, tasks, STOP) == tasks
  {
    if tasks != [] {
      assert tasks == [tasks[0]] + tasks[1..];
      AllDue(m, tasks[1..]);
    }
  }

  lemma Refused(m: Machine, task: Task)
    requires (task == FIRST || task == SECOND) && !m.status.Disputed? && |m.paths| == 2
    requires m.paths[0].name == "alpha" && m.paths[1].name == "omega"
    ensures RunTask(m, task) == m
  {
    SingleInput(m, task);
    assert FindPath(m.paths, "alpha") == 0 && FindPath(m.paths, "omega") == 1;
  }

  /** Before the dispute a pass over both tasks changes nothing but the queue. */
  lemma RefusedPass(m: Machine, tasks: seq<Task>, k: nat)
    requires Waiting(m, tasks) && k <= |tasks| && tasks[k..] == [FIRST, SECOND]
    requires forall j | 0 <= j < k :: tasks[j] == STALE
    ensures Waiting(RunSchedule(m, STOP), tasks[2..])
  {
    hide RunTask;
    DueBehind(m, tasks, k);
    Refused(m, FIRST);
    var n := Shift(m);
    Refused(n, SECOND);
    assert [FIRST, SECOND][1..] == [SECOND] && [SECOND][1..] == [];
    assert RunDue(n, [SECOND]) == Shift(n) && Shift(n).tasks == tasks[2..];
  }

  lemma DisputeCommits(m: Machine, ran: Machine, tasks: seq<Task>)
    requires ran == RunSchedule(m, STOP) && Waiting(ran, tasks)
    ensures EvalStep(m, DISPUTE).Returns? && InDispute(EvalStep(m, DISPUTE).value, tasks)
  {
    hide EvalStep, RunSchedule;
    SoloStep(m, ran, "dispute", Some("alpha"), STOP);
    assert FindPath(ran.paths, "alpha") == 0;
  }

  lemma Resolved(m: Machine, task: Task)
    requires InDispute(m, m.tasks) && (task == FIRST || task == SECOND)
    ensures var n := RunTask(m, task);
            n.output == Some(task.paths) && n.head == Link(MachineId(VMID), DISPUTED_HEAD, "null", 2, STOP)
  {
    assert m.paths[0].name == "alpha" && m.paths[1].name == "omega";
    assert FindPath(m.paths, "alpha") == 0 && FindPath(m.paths, "omega") == 1;
    SingleInput(m, task);
  }

  /** In dispute, the first task to run makes its path the output, whichever path is disputed. */
  lemma ResolvePass(m: Machine, tasks: seq<Task>, k: nat)
    requires InDispute(m, tasks) && k < |tasks| && (tasks[k] == FIRST || tasks[k] == SECOND)
    requires forall j | 0 <= j < k :: tasks[j] == STALE
    requires forall t | t in tasks[k..] :: t.timer == 5
    ensures var n := RunSchedule(m, STOP);
            n.output == Some(tasks[k].paths) && n.head == Link(MachineId(VMID), DISPUTED_HEAD, "null", 2, STOP)
  {
    hide RunTask;
    DueBehind(m, tasks, k);
    Resolved(m, tasks[k]);
    assert RunDue(m, tasks[k..]) == Shift(RunTask(m, tasks[k]));
  }

  /** With timers below zero the head does not fix the history: the two runs differ in one more
      advance, which leaves no trace in the chain, and end in different outputs. */
  lemma EqualHeadsFork()
    ensures var (a, b) := (Run(FORKING, [Evaluate([DISPUTE]), Advance(STOP)]),
                           Run(FORKING, [Advance(STOP), Evaluate([DISPUTE]), Advance(STOP)]));
            && a.Returns? && b.Returns? && a.value.head == b.value.head
            && a.value.output == Some("alpha") && b.value.output == Some("omega")
  {
    hide RunSchedule, EvalStep, InitVm, Sort;
    Start();
    var (m, tasks) := (InitVm(FORKING).value, FORKING.schedule);
    RefusedPass(m, tasks, 3);
    var once := RunSchedule(m, STOP);
    assert tasks[2..] == [STALE, FIRST, SECOND] && [STALE, FIRST, SECOND][2..] == [SECOND];
    RefusedPass(once, [STALE, FIRST, SECOND], 1);
    DisputeCommits(m, once, [STALE, FIRST, SECOND]);
    DisputeCommits(once, RunSchedule(once, STOP), [SECOND]);
    EvalOne(m, DISPUTE);
    EvalOne(once, DISPUTE);
    assert m.(error := None) == m && once.(error := None) == once;
    ResolvePass(EvalStep(m, DISPUTE).value, [STALE, FIRST, SECOND], 1);
    ResolvePass(EvalStep(once, DISPUTE).value, [SECOND], 0);
    Served(m, once);
  }

  lemma Served(m: Machine, once: Machine)
    requires m.output.None? && once.output.None? && once == RunSchedule(m, STOP)
    requires Eval(m, [DISPUTE]).Returns? && Eval(m, [DISPUTE]).value.output.None?
    requires Eval(once, [DISPUTE]).Returns? && Eval(once, [DISPUTE]).value.output.None?
    ensures ServeAll(m, [Evaluate([DISPUTE]), Advance(STOP)]) == Returns(RunSchedule(Eval(m, [DISPUTE]).value, STOP))
    ensures ServeAll(m, [Advance(STOP), Evaluate([DISPUTE]), Advance(STOP)])
         == Returns(RunSchedule(Eval(once, [DISPUTE]).value, STOP))
  {
    hide RunSchedule, Eval;
    var (a, b) := ([Evaluate([DISPUTE]), Advance(STOP)], [Advance(STOP), Evaluate([DISPUTE]), Advance(STOP)]);
    assert b[1..] == a && a[1..] == [Advance(STOP)] && [Advance(STOP)][1..] == [];
    ServeTwo(m);
    ServeTwo(once);
  }

  lemma ServeTwo(m: Machine)
    requires m.output.None? && Eval(m, [DISPUTE]).Returns? && Eval(m, [DISPUTE]).value.output.None?
    ensures ServeAll(m, [Evaluate([DISPUTE]), Advance(STOP)]) == Returns(RunSchedule(Eval(m, [DISPUTE]).value, STOP))
  {
    hide RunSchedule, Eval;
    var n := Eval(m, [DISPUTE]).value;
    var rs := [Evaluate([DISPUTE]), Advance(STOP)];
    assert rs[1..] == [Advance(STOP)] && [Advance(STOP)][1..] == [];
    assert ServeAll(n, [Advance(STOP)]) == Returns(RunSchedule(n, STOP));
  }
}
