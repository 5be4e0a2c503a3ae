/** The head of the hash chain fixes what the machine has done. Statement ids fix the
    statements, but a scheduled commit hashes only the machine's id, the step and the stamp:
    which input it was has to be worked out from the schedule. */
module History {
  import opened Basics
  import opened Labels
  import opened Sorting
  import opened Cvm
  import opened Traces
  import opened Outcomes
  import opened Schedules
  import opened Ballots

  /** Everything but the vote store, the pending tasks and the last error. */
  function CoreOf(m: Machine): Machine {
    m.(store := [], tasks := [], error := None)
  }

  lemma CoreAttempt(m: Machine, input: Input)
    ensures CoreOf(Attempt(m, input)) == Attempt(CoreOf(m), input)
    ensures Update(m, input).Ok? <==> Update(CoreOf(m), input).Ok?
  {
    hide OutputText, StatusAfter, RunPathAction, FindPath;
    if input.action != "close" && input.path.Some? && FindPath(m.paths, input.path.value) < |m.paths| {
      var ended := RunPathAction(input.action, m.paths[FindPath(m.paths, input.path.value)].state, m.status);
      assert ended.Ok? || ended.Err? || ended.Fault?;
    }
  }

  /* ---------- rebuilding the machine from its head ---------- */

  /** The machine as set up, and every input its schedule will ever try, in order. */
  datatype World = World(init: Machine, all: seq<Input>)

  function AllInputs(m: Machine, tasks: seq<Task>): seq<Input> {
    if tasks == [] then [] else TaskInputs(m, tasks[0]) + AllInputs(m, tasks[1..])
  }

  /** The first input from `from` on that carries the stamp and is accepted. */
  function NextAccepted(core: Machine, all: seq<Input>, from: nat, stamp: int): (i: nat)
    requires from <= |all|
    ensures from <= i <= |all|
    decreases |all| - from
  {
    if from == |all| || (all[from].stamp == stamp && Update(core, all[from]).Ok?) then from
    else NextAccepted(core, all, from + 1, stamp)
  }

  /** The core a head stands for, and the index of its last commit if the schedule made it. */
  datatype Rebuilt = Rebuilt(core: Machine, last: Option<nat>)

  function SearchFrom(w: World, last: Option<nat>, stamp: int): (i: nat)
    ensures i <= |w.all|
  {
    if last.Some? && last.value < |w.all| && w.all[last.value].stamp == stamp then last.value + 1 else 0
  }

  function Rebuild(w: World, h: Head): Rebuilt
    decreases h
  {
    match h
    case Genesis(_) => Rebuilt(w.init, None)
    case Link(wid, prev, _, _, stamp) =>
      var was := Rebuild(w, prev);
      match wid
      case StatementId(t) => Rebuilt(Attempt(was.core, Input(t.action, t.path, t.stamp, wid)), None)
      case MachineId(_) =>
        var i := NextAccepted(was.core, w.all, SearchFrom(w, was.last, stamp), stamp);
        if i < |w.all| then Rebuilt(Attempt(was.core, w.all[i]), Some(i)) else was
  }

  lemma {:induction false} NextAcceptedIs(core: Machine, all: seq<Input>, from: nat, stamp: int, i: nat)
    requires from <= i < |all| && all[i].stamp == stamp && Update(core, all[i]).Ok?
    requires forall l | from <= l < i && all[l].stamp == stamp :: !Update(core, all[l]).Ok?
    ensures NextAccepted(core, all, from, stamp) == i
    decreases i - from
  {
    if from < i {
      NextAcceptedIs(core, all, from + 1, stamp, i);
    }
  }

  predicate StampOrdered(all: seq<Input>) {
    forall i, j | 0 <= i < j < |all| :: all[i].stamp <= all[j].stamp
  }

  predicate Known(w: World, m: Machine, p: nat) {
    var r := Rebuild(w, m.head);
    p <= |w.all| && CoreOf(m) == r.core && (r.last.Some? ==> r.last.value < p)
  }

  /** In the middle of a call, `p` inputs in: an input tried since the last scheduled commit, at
      the same stamp as the next one, was refused by the machine as it is now. */
  predicate MidCall(w: World, m: Machine, p: nat) {
    && Known(w, m, p)
    && forall l | 0 <= l < p < |w.all| && w.all[l].stamp == w.all[p].stamp ::
         var r := Rebuild(w, m.head);
         (r.last.Some? ==> r.last.value < l) ==> !Update(r.core, w.all[l]).Ok?
  }

  lemma AcceptedInput(w: World, m: Machine, p: nat)
    requires StampOrdered(w.all) && p < |w.all| && MidCall(w, m, p)
    requires w.all[p].wid == MachineId(m.vmid)
    ensures Known(w, Attempt(m, w.all[p]), p + 1) && MidCall(w, Attempt(m, w.all[p]), p + 1)
  {
    hide Update;
    var input := w.all[p];
    var r := Rebuild(w, m.head);
    CoreAttempt(m, input);
    if Update(m, input).Ok? {
      AttemptLinks(m, input);
      var from := SearchFrom(w, r.last, input.stamp);
      forall l | from <= l < p && w.all[l].stamp == input.stamp ensures !Update(r.core, w.all[l]).Ok? {
        if r.last.Some? {
          assert w.all[r.last.value].stamp <= w.all[p].stamp;
        }
      }
      NextAcceptedIs(r.core, w.all, from, input.stamp, p);
      assert Rebuild(w, Attempt(m, input).head) == Rebuilt(Attempt(r.core, input), Some(p));
    }
  }

  lemma AttemptLinks(m: Machine, input: Input)
    requires Update(m, input).Ok?
    ensures Attempt(m, input).head == Link(input.wid, m.head, OutputText(m.output), m.step + 1, input.stamp)
  {
  }

  /** Running a stretch of the schedule's inputs keeps the machine rebuildable. */
  lemma {:induction false} InputsKnown(w: World, m: Machine, p: nat, inputs: seq<Input>)
    requires StampOrdered(w.all) && MidCall(w, m, p)
    requires p + |inputs| <= |w.all| && inputs == w.all[p..p + |inputs|]
    requires forall i | i in inputs :: i.wid == MachineId(m.vmid)
    ensures Known(w, RunInputs(m, inputs), p + |inputs|)
    ensures RunInputs(m, inputs).output.None? || inputs == [] ==> MidCall(w, RunInputs(m, inputs), p + |inputs|)
    decreases |inputs|
  {
    hide Update, NextAccepted;
    if inputs != [] {
      var next := Attempt(m, inputs[0]);
      assert inputs[0] == w.all[p];
      AcceptedInput(w, m, p);
      AttemptFrame(m, inputs[0]);
      if !Stops(m, inputs[0]) {
        InputsKnown(w, next, p + 1, inputs[1..]);
      }
    }
  }

  /* ---------- between calls ---------- */

  predicate SameInputs(w: World, m: Machine) {
    m.activeAt == w.init.activeAt && m.vmid == w.init.vmid && PathNames(m.paths) == PathNames(w.init.paths)
  }

  /** `p` inputs have been tried, the pending tasks are the rest, all later than those tried. */
  predicate Between(w: World, m: Machine, p: nat) {
    && SameInputs(w, m)
    && StampOrdered(w.all)
    && Ordered(m.tasks) && NoneStale(m, m.tasks)
    && Known(w, m, p)
    && w.all[p..] == AllInputs(w.init, m.tasks)
    && forall l, t | 0 <= l < p && t in m.tasks :: w.all[l].stamp < DueAt(m, t)
  }

  lemma {:induction false} AllInputsShape(m: Machine, tasks: seq<Task>)
    ensures forall i | i in AllInputs(m, tasks) ::
              i.wid == MachineId(m.vmid) && exists t :: t in tasks && i.stamp == DueAt(m, t)
  {
    if tasks != [] {
      AllInputsShape(m, tasks[1..]);
      var t := tasks[0];
      InputsShape(AccessList(t.actions, VALID_ACTIONS), AccessList(t.paths, PathNames(m.paths)),
                  DueAt(m, t), MachineId(m.vmid));
      forall i | i in AllInputs(m, tasks)
        ensures i.wid == MachineId(m.vmid) && exists u :: u in tasks && i.stamp == DueAt(m, u)
      {
        if i in TaskInputs(m, t) {
          assert t in tasks && i.stamp == DueAt(m, t);
        } else {
          var u :| u in tasks[1..] && i.stamp == DueAt(m, u);
          assert u in tasks;
        }
      }
    }
  }

  lemma AttemptSameInputs(w: World, m: Machine, input: Input)
    requires SameInputs(w, m)
    ensures SameInputs(w, Attempt(m, input))
  {
    AttemptFrame(m, input);
    if Update(m, input).Ok? {
      Accepted(m, input);
      NamesKept(m.paths, Attempt(m, input).paths);
    }
  }

  lemma {:induction false} RunInputsSameInputs(w: World, m: Machine, inputs: seq<Input>)
    requires SameInputs(w, m)
    ensures SameInputs(w, RunInputs(m, inputs))
    decreases |inputs|
  {
    if inputs != [] {
      AttemptSameInputs(w, m, inputs[0]);
      RunInputsSameInputs(w, Attempt(m, inputs[0]), inputs[1..]);
    }
  }

  /** Part way through a call that runs what is due by `stopAt`. */
  predicate Sweeping(w: World, m: Machine, p: nat, stopAt: int) {
    && SameInputs(w, m) && StampOrdered(w.all)
    && Ordered(m.tasks) && NoneStale(m, m.tasks)
    && p <= |w.all| && w.all[p..] == AllInputs(w.init, m.tasks)
    && forall l | 0 <= l < p :: w.all[l].stamp <= stopAt
  }

  /** One task: its inputs are the next ones, and what follows them is the rest. */
  lemma TaskSplits(w: World, m: Machine, p: nat, stopAt: int)
    requires Sweeping(w, m, p, stopAt) && m.tasks != [] && DueAt(m, m.tasks[0]) <= stopAt
    ensures var inputs := TaskInputs(m, m.tasks[0]);
            && p + |inputs| <= |w.all| && inputs == w.all[p..p + |inputs|]
            && (forall i | i in inputs :: i.wid == MachineId(m.vmid) && i.stamp <= stopAt)
            && w.all[p + |inputs|..] == AllInputs(w.init, m.tasks[1..])
  {
    var task := m.tasks[0];
    var inputs := TaskInputs(m, task);
    assert inputs == TaskInputs(w.init, task);
    InputsShape(AccessList(task.actions, VALID_ACTIONS), AccessList(task.paths, PathNames(m.paths)),
                DueAt(m, task), MachineId(m.vmid));
    var rest := w.all[p..];
    assert rest == inputs + AllInputs(w.init, m.tasks[1..]);
    assert inputs == rest[..|inputs|] == w.all[p..p + |inputs|];
    assert w.all[p + |inputs|..] == rest[|inputs|..];
  }

  lemma TaskSweeps(w: World, m: Machine, p: nat, stopAt: int) returns (q: nat)
    requires Sweeping(w, m, p, stopAt) && MidCall(w, m, p)
    requires m.tasks != [] && DueAt(m, m.tasks[0]) <= stopAt
    ensures var next := Shift(RunTask(m, m.tasks[0]));
            && next.tasks == m.tasks[1..] && next.activeAt == m.activeAt
            && Sweeping(w, next, q, stopAt) && Known(w, next, q)
            && (next.output.None? ==> MidCall(w, next, q))
  {
    hide Update, NextAccepted, Rebuild, TaskInputs, RunInputs;
    var inputs := TaskInputs(m, m.tasks[0]);
    TaskSplits(w, m, p, stopAt);
    InputsKnown(w, m, p, inputs);
    InputsFrame(m, inputs);
    RunInputsSameInputs(w, m, inputs);
    q := p + |inputs|;
    QueueSuffix(m, Shift(RunTask(m, m.tasks[0])), 1);
    forall l | 0 <= l < q ensures w.all[l].stamp <= stopAt {
      if p <= l {
        assert w.all[l] == inputs[l - p];
      }
    }
  }

  /** Running the first `k` pending tasks; `stopAt` separates them from the others. */
  lemma {:induction false} DueKnown(w: World, m: Machine, p: nat, k: nat, stopAt: int) returns (q: nat)
    requires Sweeping(w, m, p, stopAt) && MidCall(w, m, p)
    requires k <= |m.tasks| && m.output.None?
    requires forall i | 0 <= i < k :: DueAt(m, m.tasks[i]) <= stopAt
    ensures var n := RunDue(m, m.tasks[..k]);
            && Sweeping(w, n, q, stopAt) && Known(w, n, q)
            && (n.output.None? ==> n.tasks == m.tasks[k..])
    decreases k
  {
    hide Sweeping, MidCall, Known, RunTask, Shift;
    if k == 0 {
      q := p;
      assert m.tasks[0..] == m.tasks;
      MidIsKnown(w, m, p);
    } else {
      var next := Shift(RunTask(m, m.tasks[0]));
      q := TaskSweeps(w, m, p, stopAt);
      assert m.tasks[..k][0] == m.tasks[0] && m.tasks[..k][1..] == next.tasks[..k - 1];
      if next.output.None? {
        forall i | 0 <= i < k - 1 ensures DueAt(next, next.tasks[i]) <= stopAt {
          assert next.tasks[i] == m.tasks[i + 1];
        }
        q := DueKnown(w, next, q, k - 1, stopAt);
      }
    }
  }

  lemma MidIsKnown(w: World, m: Machine, p: nat)
    requires MidCall(w, m, p)
    ensures Known(w, m, p)
  {
  }

  /** Between calls the next input is later than every input tried. */
  lemma BetweenIsMid(w: World, m: Machine, p: nat)
    requires Between(w, m, p)
    ensures MidCall(w, m, p)
  {
    if p < |w.all| {
      AllInputsShape(w.init, m.tasks);
      assert w.all[p] == w.all[p..][0];
      assert w.all[p] in AllInputs(w.init, m.tasks);
      var t :| t in m.tasks && w.all[p].stamp == DueAt(w.init, t);
      assert DueAt(m, t) == DueAt(w.init, t);
    }
  }

  lemma ScheduleKnown(w: World, m: Machine, p: nat, stopAt: int) returns (q: nat)
    requires Between(w, m, p) && m.output.None?
    ensures Known(w, RunSchedule(m, stopAt), q)
    ensures RunSchedule(m, stopAt).output.None? ==> Between(w, RunSchedule(m, stopAt), q)
  {
    var due := Due(m, m.tasks, stopAt);
    DuePrefix(m, m.tasks, stopAt);
    q := p;
    if due != [] {
      BetweenIsMid(w, m, p);
      forall l | 0 <= l < p ensures w.all[l].stamp <= stopAt {
        assert m.tasks[0] in m.tasks && DueAt(m, m.tasks[0]) <= stopAt;
      }
      q := DueKnown(w, m, p, |due|, stopAt);
      ScheduleStep(m, stopAt);
    }
  }

  /** A statement's own commit, made between two calls to the schedule. */
  lemma ProgramKnown(w: World, m: Machine, p: nat, wit: Witness)
    requires Between(w, m, p) && Honest(wit)
    ensures Between(w, RunProgram(m, wit).0, p)
  {
    hide Update, NextAccepted;
    var n := RunProgram(m, wit).0;
    ProgramFrame(m, wit);
    if Loads(m, wit) {
      var r := Record(m, wit);
      assert CoreOf(r) == CoreOf(m);
      AttemptSameInputs(w, r, InputOf(wit));
      CoreAttempt(r, InputOf(wit));
      if Update(r, InputOf(wit)).Ok? {
        AttemptLinks(r, InputOf(wit));
      }
      assert Known(w, n, p);
    }
  }

  lemma StepKnown(w: World, m: Machine, p: nat, wit: Witness) returns (q: nat)
    requires Between(w, m, p) && m.output.None? && Honest(wit) && EvalStep(m, wit).Returns?
    ensures Known(w, EvalStep(m, wit).value, q)
    ensures EvalStep(m, wit).value.output.None? ==> Between(w, EvalStep(m, wit).value, q)
  {
    var ran := RunSchedule(m, wit.tmpl.stamp);
    q := ScheduleKnown(w, m, p, wit.tmpl.stamp);
    var es := ScheduleTrace(m, wit.tmpl.stamp);
    TraceOutput(m, es, ran);
    if !ran.closed {
      ProgramKnown(w, ran, q, wit);
      var n := RunProgram(ran, wit).0;
      assert Between(w, n.(error := EvalStep(m, wit).value.error), q);
    }
  }

  lemma {:induction false} StackKnown(w: World, m: Machine, p: nat, stack: seq<Witness>) returns (q: nat)
    requires Between(w, m, p) && m.output.None? && m.error.None?
    requires (forall wit | wit in stack :: Honest(wit)) && EvalStack(m, stack).Returns?
    ensures Known(w, EvalStack(m, stack).value, q)
    ensures EvalStack(m, stack).value.output.None? ==> Between(w, EvalStack(m, stack).value, q)
    decreases |stack|
  {
    q := p;
    if stack != [] {
      q := StepKnown(w, m, p, stack[0]);
      StepFrame(m, stack[0]);
      var next := EvalStep(m, stack[0]).value;
      if !next.closed && next.error.None? {
        q := StackKnown(w, next, q, stack[1..]);
      }
    }
  }

  lemma {:induction false} ServeKnown(w: World, m: Machine, p: nat, rs: seq<Request>) returns (q: nat)
    requires Known(w, m, p) && (m.output.None? ==> Between(w, m, p))
    requires ServeAll(m, rs).Returns? && AllStatements(rs, Honest)
    ensures Known(w, ServeAll(m, rs).value, q)
    decreases |rs|
  {
    q := p;
    if rs != [] {
      if m.output.None? {
        match rs[0] {
          case Advance(stopAt) =>
            q := ScheduleKnown(w, m, p, stopAt);
          case Evaluate(stack) =>
            SortMembers(ByStamp, stack);
            forall wit | wit in stack ensures Honest(wit) {
              var honest: Witness -> bool := Honest;
              assert rs[0] in rs && honest(wit);
            }
            assert Between(w, m.(error := None), p);
            q := StackKnown(w, m.(error := None), p, Sort(ByStamp, stack));
        }
      }
      q := ServeKnown(w, Serve(m, rs[0]).value, q, rs[1..]);
    }
  }

  /** The world a configuration sets up. */
  function WorldOf(c: Config): World
    requires InitVm(c).Returns?
  {
    var m := InitVm(c).value;
    World(CoreOf(m), AllInputs(CoreOf(m), m.tasks))
  }

  lemma {:induction false} AllInputsOrdered(m: Machine, tasks: seq<Task>)
    requires Ordered(tasks)
    ensures StampOrdered(AllInputs(m, tasks))
  {
    if tasks != [] {
      AllInputsOrdered(m, tasks[1..]);
      AllInputsShape(m, tasks[1..]);
      var t := tasks[0];
      var (first, rest) := (TaskInputs(m, t), AllInputs(m, tasks[1..]));
      InputsShape(AccessList(t.actions, VALID_ACTIONS), AccessList(t.paths, PathNames(m.paths)),
                  DueAt(m, t), MachineId(m.vmid));
      forall i | i in rest ensures DueAt(m, t) <= i.stamp {
        var u :| u in tasks[1..] && i.stamp == DueAt(m, u);
      }
      var all := first + rest;
      forall i, j | 0 <= i < j < |all| ensures all[i].stamp <= all[j].stamp {
        if j < |first| {
          assert all[i] == first[i] && all[j] == first[j];
        } else {
          assert all[j] == rest[j - |first|];
          if i < |first| { assert all[i] == first[i]; } else { assert all[i] == rest[i - |first|]; }
        }
      }
    }
  }

  /** After every run, the head alone rebuilds the machine. */
  lemma HeadRebuilds(c: Config, rs: seq<Request>)
    requires Run(c, rs).Returns? && AllStatements(rs, Honest)
    requires forall t | t in c.schedule :: t.timer >= 0
    ensures CoreOf(Run(c, rs).value) == Rebuild(WorldOf(c), Run(c, rs).value.head).core
  {
    var (w, m) := (WorldOf(c), InitVm(c).value);
    InitOrdered(c.schedule);
    SortMembers(ByTimer, c.schedule);
    AllInputsOrdered(w.init, m.tasks);
    assert w.all[0..] == w.all;
    assert Between(w, m, 0);
    var q := ServeKnown(w, m, 0, rs);
  }

  /** The head fixes the history. Take any two runs of machines set up alike, with any
      schedule whose timers are not negative, and with statements whose ids are honest. If their
      heads are equal, so are their path states, status, output, closing time, commit time and
      step; neither the paths nor the output they closed on is ever hashed. */
  lemma HeadFixesHistory(c: Config, rs: seq<Request>, other: seq<Request>)
    requires Run(c, rs).Returns? && AllStatements(rs, Honest)
    requires Run(c, other).Returns? && AllStatements(other, Honest)
    requires forall t | t in c.schedule :: t.timer >= 0
    requires Run(c, rs).value.head == Run(c, other).value.head
    ensures var (m, n) := (Run(c, rs).value, Run(c, other).value);
            && m.paths == n.paths && m.status == n.status && m.output == n.output
            && m.closed == n.closed && m.closedAt == n.closedAt
            && m.commitAt == n.commitAt && m.step == n.step
  {
    HeadRebuilds(c, rs);
    HeadRebuilds(c, other);
    var (m, n) := (Run(c, rs).value, Run(c, other).value);
    assert CoreOf(m) == CoreOf(n);
    assert CoreOf(m).paths == m.paths && CoreOf(n).paths == n.paths;
  }

  /* ---------- the chain itself ---------- */

  /** Steps count up by one, stamps never go back, and the hashed output is always "null". */
  predicate ChainOk(h: Head, activeAt: int) {
    match h
    case Genesis(_) => true
    case Link(_, prev, output, step, stamp) =>
      && ChainOk(prev, activeAt)
      && output == "null"
      && step == Length(h)
      && StampOf(prev, activeAt) <= stamp
  }

  function StampOf(h: Head, activeAt: int): int {
    match h
    case Genesis(_) => activeAt
    case Link(_, _, _, _, stamp) => stamp
  }

  predicate ChainInv(m: Machine) {
    ChainOk(m.head, m.activeAt) && m.step == Length(m.head) && m.commitAt == StampOf(m.head, m.activeAt)
  }

  lemma ChainAttempt(m: Machine, input: Input)
    requires ChainInv(m) && m.output.None?
    ensures ChainInv(Attempt(m, input))
  {
    if Update(m, input).Ok? {
      Accepted(m, input);
      AttemptLinks(m, input);
    }
  }

  /** After every run the chain records each commit once: as many links as steps, with the
      clock of the last link, never an earlier stamp after a later one, and never an output. */
  lemma ChainRecordsCommits(c: Config, rs: seq<Request>)
    requires Run(c, rs).Returns?
    ensures ChainInv(Run(c, rs).value)
  {
    forall m, e | ChainInv(m) && Legal(m, e) ensures ChainInv(Apply(m, e)) {
      match e {
        case SetError(_) =>
        case DropTask =>
        case Scheduled(input) => ChainAttempt(m, input);
        case Stated(wit) =>
          assert ChainInv(Record(m, wit));
          ChainAttempt(Record(m, wit), InputOf(wit));
      }
    }
    RunInvariant(m => ChainInv(m), _ => true, c, rs);
  }
}
