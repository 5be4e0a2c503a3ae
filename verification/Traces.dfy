/** Whole runs: what a caller can ask of the machine, the small events each request
    breaks down into, and the induction principle every whole-run theorem uses. */
module Traces {
  import opened Basics
  import opened Labels
  import opened Sorting
  import opened Cvm

  /* ---------- requests ---------- */

  datatype Request = Evaluate(stack: seq<Witness>) | Advance(stopAt: int)

  function Serve(m: Machine, r: Request): Call<Machine> {
    match r
    case Evaluate(stack) => Eval(m, stack)
    case Advance(stopAt) => Returns(EvalSchedule(m, stopAt))
  }

  function ServeAll(m: Machine, rs: seq<Request>): Call<Machine>
    decreases |rs|
  {
    if rs == [] then Returns(m)
    else if Serve(m, rs[0]).Throws? then Throws
    else ServeAll(Serve(m, rs[0]).value, rs[1..])
  }

  /** A machine set up from `c` that has served `rs`. */
  function Run(c: Config, rs: seq<Request>): Call<Machine> {
    if InitVm(c).Throws? then Throws else ServeAll(InitVm(c).value, rs)
  }

  /** Every statement submitted in the run satisfies `ok`. */
  ghost predicate AllStatements(rs: seq<Request>, ok: Witness -> bool) {
    forall r, wit | r in rs && r.Evaluate? && wit in r.stack :: ok(wit)
  }

  /* ---------- events ---------- */

  datatype Event =
    | SetError(error: Option<VmError>)
    | DropTask
    | Scheduled(input: Input)   // tried by the schedule, whether or not it is accepted
    | Stated(wit: Witness)      // a statement's program run, and its commit if it approves

  function Apply(m: Machine, e: Event): Machine {
    match e
    case SetError(error) => m.(error := error)
    case DropTask => Shift(m)
    case Scheduled(input) => Attempt(m, input)
    case Stated(wit) => RunProgram(m, wit).0
  }

  /** Both callers of the commit step pass a path only to a path action. */
  predicate WellFormed(input: Input) {
    input.path.Some? ==> input.action in PATH_ACTIONS
  }

  /** One of the inputs of a task that is still in the queue. */
  predicate FromQueue(m: Machine, input: Input) {
    exists t :: t in m.tasks && input in TaskInputs(m, t)
  }

  predicate Legal(m: Machine, e: Event) {
    match e
    case SetError(_) => true
    case DropTask => true
    case Scheduled(input) =>
      m.output.None? && FromQueue(m, input) && WellFormed(input) && input.wid == MachineId(m.vmid)
    case Stated(wit) => m.output.None? && !m.closed && !RunProgram(m, wit).1.Fault?
  }

  ghost predicate Trace(m: Machine, es: seq<Event>, last: Machine)
    decreases |es|
  {
    if es == [] then m == last else Legal(m, es[0]) && Trace(Apply(m, es[0]), es[1..], last)
  }

  ghost predicate StatedOk(es: seq<Event>, ok: Witness -> bool) {
    forall e | e in es && e.Stated? :: ok(e.wit)
  }

  lemma {:induction false} TraceAppend(m: Machine, es: seq<Event>, mid: Machine, fs: seq<Event>, last: Machine)
    requires Trace(m, es, mid) && Trace(mid, fs, last)
    ensures Trace(m, es + fs, last)
    decreases |es|
  {
    hide Apply, Legal;
    if es == [] {
      assert es + fs == fs;
    } else {
      TraceAppend(Apply(m, es[0]), es[1..], mid, fs, last);
      assert (es + fs)[1..] == es[1..] + fs;
    }
  }

  lemma TraceThen(m: Machine, es: seq<Event>, mid: Machine, e: Event)
    requires Trace(m, es, mid) && Legal(mid, e)
    ensures Trace(m, es + [e], Apply(mid, e))
  {
    assert [e][1..] == [];
    assert Trace(Apply(mid, e), [], Apply(mid, e));
    TraceAppend(m, es, mid, [e], Apply(mid, e));
  }

  /** The earliest stamp and one machine id that the schemas admit, for concrete runs. */
  const START := 500_000_000
  const VMID := "0000000000000000000000000000000000000000000000000000000000000000"

  /* ---------- requests as events ---------- */

  function InputEvents(m: Machine, inputs: seq<Input>): seq<Event>
    decreases |inputs|
  {
    if inputs == [] then []
    else [Scheduled(inputs[0])] + if Stops(m, inputs[0]) then [] else InputEvents(Attempt(m, inputs[0]), inputs[1..])
  }

  function DueEvents(m: Machine, due: seq<Task>): seq<Event>
    decreases |due|
  {
    if due == [] then []
    else
      var next := Shift(RunTask(m, due[0]));
      InputEvents(m, TaskInputs(m, due[0])) + [DropTask] + if next.output.Some? then [] else DueEvents(next, due[1..])
  }

  function ScheduleEvents(m: Machine, stopAt: int): seq<Event> {
    DueEvents(m, Due(m, m.tasks, stopAt))
  }

  function StepEvents(m: Machine, wit: Witness): seq<Event> {
    var ran := RunSchedule(m, wit.tmpl.stamp);
    ScheduleEvents(m, wit.tmpl.stamp) + if ran.closed then [] else [Stated(wit)] + ErrorEvents(RunProgram(ran, wit).1)
  }

  function ErrorEvents(ended: Outcome<(), VmError>): seq<Event> {
    if ended.Err? then [SetError(Some(ended.error))] else []
  }

  function StackEvents(m: Machine, stack: seq<Witness>): seq<Event>
    decreases |stack|
  {
    if stack == [] then []
    else
      var next := EvalStep(m, stack[0]);
      StepEvents(m, stack[0])
      + if next.Throws? || next.value.closed || next.value.error.Some? then [] else StackEvents(next.value, stack[1..])
  }

  function RequestEvents(m: Machine, r: Request): seq<Event> {
    if m.output.Some? then []
    else
      match r
      case Advance(stopAt) => ScheduleEvents(m, stopAt)
      case Evaluate(stack) => [SetError(None)] + StackEvents(m.(error := None), Sort(ByStamp, stack))
  }

  /** The events of a sequence of requests: which inputs the schedule tries, which tasks it
      drops, which statements reach their program and which errors are kept. */
  function ServeEvents(m: Machine, rs: seq<Request>): seq<Event>
    decreases |rs|
  {
    if rs == [] then []
    else
      RequestEvents(m, rs[0])
      + if Serve(m, rs[0]).Throws? then [] else ServeEvents(Serve(m, rs[0]).value, rs[1..])
  }

  lemma {:induction false} InputsShape(alist: seq<string>, plist: seq<string>, stamp: int, wid: Wid)
    ensures forall input | input in Inputs(alist, plist, stamp, wid) ::
              WellFormed(input) && input.wid == wid && input.stamp == stamp
  {
    if alist != [] {
      if alist[0] in PATH_ACTIONS {
        ActionInputsShape(alist[0], plist, stamp, wid);
      }
      InputsShape(alist[1..], plist, stamp, wid);
    }
  }

  lemma {:induction false} ActionInputsShape(action: string, plist: seq<string>, stamp: int, wid: Wid)
    requires action in PATH_ACTIONS
    ensures forall input | input in ActionInputs(action, plist, stamp, wid) ::
              WellFormed(input) && input.wid == wid && input.stamp == stamp
  {
    if plist != [] {
      ActionInputsShape(action, plist[1..], stamp, wid);
    }
  }

  ghost predicate OnlyScheduled(es: seq<Event>) {
    forall e | e in es :: e.Scheduled? || e.DropTask?
  }

  /** The events of a run. */
  function RunEvents(c: Config, rs: seq<Request>): seq<Event> {
    if InitVm(c).Throws? then [] else ServeEvents(InitVm(c).value, rs)
  }

  lemma {:induction false} NamesKept(paths: seq<PathEntry>, now: seq<PathEntry>)
    requires |paths| == |now| && forall i | 0 <= i < |paths| :: now[i].name == paths[i].name
    ensures PathNames(now) == PathNames(paths)
  {
    if paths != [] {
      NamesKept(paths[1..], now[1..]);
    }
  }

  lemma AttemptNames(m: Machine, input: Input)
    ensures PathNames(Attempt(m, input).paths) == PathNames(m.paths)
  {
    NamesKept(m.paths, Attempt(m, input).paths);
  }

  lemma {:induction false} InputsTrace(m: Machine, inputs: seq<Input>, task: Task) returns (es: seq<Event>)
    requires m.output.None? && task in m.tasks
    requires forall input | input in inputs :: input in TaskInputs(m, task)
    requires forall input | input in inputs :: WellFormed(input) && input.wid == MachineId(m.vmid)
    ensures Trace(m, es, RunInputs(m, inputs)) && OnlyScheduled(es)
    ensures es == InputEvents(m, inputs)
    ensures PathNames(RunInputs(m, inputs).paths) == PathNames(m.paths)
    decreases |inputs|
  {
    hide Update, Inputs;
    if inputs == [] {
      es := [];
    } else {
      var next := Attempt(m, inputs[0]);
      AttemptFrame(m, inputs[0]);
      AttemptNames(m, inputs[0]);
      assert FromQueue(m, inputs[0]);
      var rest: seq<Event> := [];
      if !Stops(m, inputs[0]) {
        rest := InputsTrace(next, inputs[1..], task);
      }
      es := [Scheduled(inputs[0])] + rest;
      assert es[1..] == rest;
    }
  }

  /** Dropping one task from the front before each further due task never drops one that is still to run. */
  predicate InPlace(tasks: seq<Task>, due: seq<Task>) {
    |due| <= |tasks| && forall j | 0 <= j < |due| :: due[j] in tasks[j..]
  }

  lemma {:induction false} DueInPlace(m: Machine, tasks: seq<Task>, stopAt: int)
    ensures InPlace(tasks, Due(m, tasks, stopAt))
  {
    if tasks != [] {
      var (due, later) := (Due(m, tasks, stopAt), Due(m, tasks[1..], stopAt));
      DueInPlace(m, tasks[1..], stopAt);
      forall j | 0 <= j < |due| ensures due[j] in tasks[j..] {
        if IsDue(m, tasks[0], stopAt) && j > 0 {
          assert due[j] == later[j - 1] && tasks[1..][j - 1..] == tasks[j..];
        } else if !IsDue(m, tasks[0], stopAt) {
          assert due[j] == later[j] && tasks[1..][j..] == tasks[j..][1..];
        }
      }
    }
  }

  lemma {:induction false} DueTrace(m: Machine, due: seq<Task>) returns (es: seq<Event>)
    requires m.output.None? && InPlace(m.tasks, due)
    ensures Trace(m, es, RunDue(m, due)) && OnlyScheduled(es)
    ensures es == DueEvents(m, due)
    decreases |due|
  {
    hide Update, Inputs, RunInputs;
    if due == [] {
      es := [];
    } else {
      var (task, inputs) := (due[0], TaskInputs(m, due[0]));
      assert task in m.tasks[0..] && m.tasks[0..] == m.tasks;
      InputsShape(AccessList(task.actions, VALID_ACTIONS), AccessList(task.paths, PathNames(m.paths)),
                  DueAt(m, task), MachineId(m.vmid));
      var ran := RunTask(m, task);
      es := InputsTrace(m, inputs, task);
      InputsFrame(m, inputs);
      TraceThen(m, es, ran, DropTask);
      es := es + [DropTask];
      var next := Shift(ran);
      if next.output.None? {
        forall j | 0 <= j < |due[1..]| ensures due[1..][j] in next.tasks[j..] {
          assert due[1..][j] == due[j + 1] && next.tasks[j..] == m.tasks[j + 1..];
        }
        var rest := DueTrace(next, due[1..]);
        TraceAppend(m, es, next, rest, RunDue(m, due));
        es := es + rest;
      }
    }
  }

  lemma ScheduleTrace(m: Machine, stopAt: int) returns (es: seq<Event>)
    requires m.output.None?
    ensures Trace(m, es, RunSchedule(m, stopAt)) && OnlyScheduled(es)
    ensures es == ScheduleEvents(m, stopAt)
  {
    DueInPlace(m, m.tasks, stopAt);
    es := DueTrace(m, Due(m, m.tasks, stopAt));
  }

  /** The schedule never takes a machine that is still open to one with an output but not closed. */
  lemma {:induction false} TraceOutput(m: Machine, es: seq<Event>, last: Machine)
    requires Trace(m, es, last) && OnlyScheduled(es)
    requires m.output.Some? ==> m.closed
    ensures last.output.Some? ==> last.closed
    decreases |es|
  {
    if es != [] {
      if es[0].Scheduled? {
        AttemptFrame(m, es[0].input);
      }
      TraceOutput(Apply(m, es[0]), es[1..], last);
    }
  }

  lemma StepTrace(m: Machine, wit: Witness) returns (es: seq<Event>)
    requires m.output.None? && EvalStep(m, wit).Returns?
    ensures Trace(m, es, EvalStep(m, wit).value)
    ensures es == StepEvents(m, wit)
    ensures forall e | e in es && e.Stated? :: e.wit == wit
  {
    hide RunProgram, RunSchedule, Attempt;
    var ran := RunSchedule(m, wit.tmpl.stamp);
    es := ScheduleTrace(m, wit.tmpl.stamp);
    TraceOutput(m, es, ran);
    if !ran.closed {
      var (next, ended) := RunProgram(ran, wit);
      TraceThen(m, es, ran, Stated(wit));
      es := es + [Stated(wit)];
      if ended.Err? {
        TraceThen(m, es, next, SetError(Some(ended.error)));
        es := es + [SetError(Some(ended.error))];
      }
    }
  }

  /** A step returns with an output only when it closes, and with an error only when it does not. */
  lemma StepFrame(m: Machine, wit: Witness)
    requires m.output.None? && m.error.None? && EvalStep(m, wit).Returns?
    ensures var n := EvalStep(m, wit).value;
            && (n.output.Some? ==> n.closed)
            && (n.error.Some? ==> !n.closed)
  {
    var ran := RunSchedule(m, wit.tmpl.stamp);
    var es := ScheduleTrace(m, wit.tmpl.stamp);
    TraceOutput(m, es, ran);
    ScheduleKeepsError(m, wit.tmpl.stamp);
    ProgramFrame(ran, wit);
    FailedProgram(ran, wit);
  }

  lemma {:induction false} StackTrace(m: Machine, stack: seq<Witness>, ok: Witness -> bool) returns (es: seq<Event>)
    requires m.output.None? && m.error.None?
    requires forall wit | wit in stack :: ok(wit)
    requires EvalStack(m, stack).Returns?
    ensures Trace(m, es, EvalStack(m, stack).value) && StatedOk(es, ok)
    ensures es == StackEvents(m, stack)
    decreases |stack|
  {
    if stack == [] {
      es := [];
    } else {
      es := StepTrace(m, stack[0]);
      var next := EvalStep(m, stack[0]).value;
      if !next.closed && next.error.None? {
        StepFrame(m, stack[0]);
        var rest := StackTrace(next, stack[1..], ok);
        TraceAppend(m, es, next, rest, EvalStack(m, stack).value);
        es := es + rest;
      }
    }
  }

  lemma ServeTrace(m: Machine, r: Request, ok: Witness -> bool) returns (es: seq<Event>)
    requires Serve(m, r).Returns?
    requires r.Evaluate? ==> forall wit | wit in r.stack :: ok(wit)
    ensures Trace(m, es, Serve(m, r).value) && StatedOk(es, ok)
    ensures es == RequestEvents(m, r)
  {
    if m.output.Some? {
      es := [];
    } else {
      match r
      case Advance(stopAt) =>
        es := ScheduleTrace(m, stopAt);
      case Evaluate(stack) =>
        SortMembers(ByStamp, stack);
        var rest := StackTrace(m.(error := None), Sort(ByStamp, stack), ok);
        es := [SetError(None)] + rest;
        assert es[1..] == rest;
    }
  }

  /** Every sequence of requests is the sequence of its events, each of them legal. */
  lemma {:induction false} ServeAllTrace(m: Machine, rs: seq<Request>, ok: Witness -> bool) returns (es: seq<Event>)
    requires ServeAll(m, rs).Returns? && AllStatements(rs, ok)
    ensures Trace(m, es, ServeAll(m, rs).value) && StatedOk(es, ok)
    ensures es == ServeEvents(m, rs)
    decreases |rs|
  {
    if rs == [] {
      es := [];
    } else {
      var next := Serve(m, rs[0]).value;
      es := ServeTrace(m, rs[0], ok);
      var rest := ServeAllTrace(next, rs[1..], ok);
      TraceAppend(m, es, next, rest, ServeAll(m, rs).value);
      es := es + rest;
    }
  }

  /* ---------- the induction principle ---------- */

  /** Every legal event keeps `inv`, given that its statement (if any) satisfies `ok`. */
  ghost predicate Keeps(inv: Machine -> bool, ok: Witness -> bool) {
    forall m, e | inv(m) && Legal(m, e) && (e.Stated? ==> ok(e.wit)) :: inv(Apply(m, e))
  }

  lemma {:induction false} TraceInvariant(
    inv: Machine -> bool, ok: Witness -> bool, m: Machine, es: seq<Event>, last: Machine)
    requires Keeps(inv, ok) && Trace(m, es, last) && StatedOk(es, ok) && inv(m)
    ensures inv(last)
    decreases |es|
  {
    if es != [] {
      TraceInvariant(inv, ok, Apply(m, es[0]), es[1..], last);
    }
  }

  /** An invariant of single events, true at the start, holds after every run. */
  lemma RunInvariant(inv: Machine -> bool, ok: Witness -> bool, c: Config, rs: seq<Request>)
    requires Keeps(inv, ok) && Run(c, rs).Returns? && AllStatements(rs, ok)
    requires inv(InitVm(c).value)
    ensures inv(Run(c, rs).value)
  {
    var es := ServeAllTrace(InitVm(c).value, rs, ok);
    TraceInvariant(inv, ok, InitVm(c).value, es, Run(c, rs).value);
  }
}
