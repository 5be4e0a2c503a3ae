/** A stack evaluated in one call against the same statements evaluated one call at a
    time: the two executions the session verifier compares. */
module Replays {
  import opened Basics
  import opened Sorting
  import opened Cvm
  import opened Traces
  import opened Schedules
  import opened Samples
  import Vm

  /** One call per statement. */
  function Replay(m: Machine, stack: seq<Witness>): Call<Machine>
    decreases |stack|
  {
    if stack == [] then Returns(m)
    else if Eval(m, [stack[0]]).Throws? then Throws
    else Replay(Eval(m, [stack[0]]).value, stack[1..])
  }

  function LastStamp(stack: seq<Witness>): int
    requires stack != []
  {
    stack[|stack| - 1].tmpl.stamp
  }

  /** Closed without an output, with a task that a later statement of the stack would have run. */
  predicate LeftBehind(b: Machine, stack: seq<Witness>) {
    stack != [] && b.closed && b.output.None? && Due(b, b.tasks, LastStamp(stack)) != []
  }

  predicate InStampOrder(stack: seq<Witness>) {
    forall i, j | 0 <= i < j < |stack| :: stack[i].tmpl.stamp <= stack[j].tmpl.stamp
  }

  /** `get_statements` leaves the stack in stamp order. */
  lemma SortedStack(stack: seq<Witness>)
    ensures InStampOrder(Sort(ByStamp, stack))
  {
    assert TotalPreorder(ByStamp);
    SortSorts(ByStamp, stack);
    var sorted := Sort(ByStamp, stack);
    forall i, j | 0 <= i < j < |sorted| ensures sorted[i].tmpl.stamp <= sorted[j].tmpl.stamp {
      assert ByStamp(sorted[i], sorted[j]);
    }
  }

  /** One step keeps a good queue good, and leaves nothing due if there is no output. */
  lemma StepQueue(m: Machine, wit: Witness)
    requires Ordered(m.tasks) && NoneStale(m, m.tasks) && EvalStep(m, wit).Returns?
    requires m.output.None?
    ensures var n := EvalStep(m, wit).value;
            && Ordered(n.tasks) && NoneStale(n, n.tasks)
            && (n.output.None? ==> Due(n, n.tasks, wit.tmpl.stamp) == [])
  {
    var stop := wit.tmpl.stamp;
    var ran := RunSchedule(m, stop);
    ScheduleStep(m, stop);
    var es := ScheduleTrace(m, stop);
    TraceOutput(m, es, ran);
    ProgramFrame(ran, wit);
    var n := EvalStep(m, wit).value;
    assert n.tasks[0..] == n.tasks && n.tasks == ran.tasks;
    QueueSuffix(ran, n, 0);
    if n.output.None? {
      NothingDue(n, n.tasks, stop);
    }
  }

  lemma {:induction false} FinalReplay(b: Machine, stack: seq<Witness>)
    requires b.output.Some?
    ensures Replay(b, stack) == Returns(b)
    decreases |stack|
  {
    if stack != [] {
      FinalReplay(b, stack[1..]);
    }
  }

  lemma {:induction false} DueMonotone(m: Machine, tasks: seq<Task>, a: int, b: int)
    requires a <= b
    ensures Due(m, tasks, b) == [] ==> Due(m, tasks, a) == []
  {
    if tasks != [] {
      DueMonotone(m, tasks[1..], a, b);
    }
  }

  /** On a machine closed without an output, later statements only run the schedule. */
  lemma ClosedStep(b: Machine, wit: Witness)
    requires b.closed && b.output.None? && b.error.None?
    ensures Eval(b, [wit]) == Returns(RunSchedule(b, wit.tmpl.stamp))
    ensures RunSchedule(b, wit.tmpl.stamp).closed && RunSchedule(b, wit.tmpl.stamp).error.None?
    ensures Due(b, b.tasks, wit.tmpl.stamp) == [] ==> RunSchedule(b, wit.tmpl.stamp) == b
    ensures |RunSchedule(b, wit.tmpl.stamp).tasks| <= |b.tasks|
    ensures Due(b, b.tasks, wit.tmpl.stamp) != [] ==> |RunSchedule(b, wit.tmpl.stamp).tasks| < |b.tasks|
  {
    var stop := wit.tmpl.stamp;
    EvalOne(b, wit);
    assert b.(error := None) == b;
    DueLength(b, b.tasks, stop);
    RunDueFrame(b, Due(b, b.tasks, stop));
    var es := ScheduleTrace(b, stop);
    TraceCloses(b, es, RunSchedule(b, stop));
  }

  lemma {:induction false} TraceCloses(m: Machine, es: seq<Event>, last: Machine)
    requires Trace(m, es, last) && m.closed
    ensures last.closed
    decreases |es|
  {
    if es != [] {
      match es[0] {
        case SetError(_) =>
        case DropTask =>
        case Scheduled(input) => AttemptFrame(m, input);
        case Stated(wit) => ProgramFrame(m, wit);
      }
      TraceCloses(Apply(m, es[0]), es[1..], last);
    }
  }

  /** Replaying never lengthens the queue of a closed machine. */
  lemma {:induction false} ClosedReplayShrinks(b: Machine, stack: seq<Witness>)
    requires b.closed && b.error.None?
    ensures Replay(b, stack).Returns? && |Replay(b, stack).value.tasks| <= |b.tasks|
    decreases |stack|
  {
    if b.output.Some? {
      FinalReplay(b, stack);
    } else if stack != [] {
      ClosedStep(b, stack[0]);
      ClosedReplayShrinks(Eval(b, [stack[0]]).value, stack[1..]);
    }
  }

  lemma {:induction false} ClosedReplay(b: Machine, stack: seq<Witness>)
    requires b.closed && b.output.None? && b.error.None? && InStampOrder(stack)
    ensures Replay(b, stack) == Returns(b) <==> stack == [] || Due(b, b.tasks, LastStamp(stack)) == []
    decreases |stack|
  {
    hide RunSchedule, Due, Eval;
    if stack != [] {
      var stamp := stack[0].tmpl.stamp;
      assert stamp <= LastStamp(stack);
      ClosedStep(b, stack[0]);
      DueMonotone(b, b.tasks, stamp, LastStamp(stack));
      if Due(b, b.tasks, stamp) == [] {
        ClosedReplay(b, stack[1..]);
      } else {
        ClosedReplayShrinks(RunSchedule(b, stamp), stack[1..]);
      }
    }
  }

  /** The engine of the proof, on a stack already in order. */
  lemma {:induction false} StackReplay(m: Machine, stack: seq<Witness>)
    requires m.output.None? && m.error.None? && InStampOrder(stack)
    requires EvalStack(m, stack).Returns? && EvalStack(m, stack).value.error.None?
    ensures var b := EvalStack(m, stack).value;
            && (!LeftBehind(b, stack) ==> Replay(m, stack) == Returns(b))
            && (LeftBehind(b, stack) && Ordered(m.tasks) && NoneStale(m, m.tasks) ==> Replay(m, stack) != Returns(b))
    decreases |stack|
  {
    if stack != [] {
      var wit, rest := stack[0], stack[1..];
      assert m.(error := None) == m;
      EvalOne(m, wit);
      StepFrame(m, wit);
      var next := EvalStep(m, wit).value;
      if Ordered(m.tasks) && NoneStale(m, m.tasks) {
        StepQueue(m, wit);
      }
      if next.output.Some? {
        FinalReplay(next, rest);
      } else if next.closed {
        ClosedReplay(next, rest);
      } else {
        StackReplay(next, rest);
      }
    }
  }

  /** Batch equals replay, exactly. If one call evaluates the stack without an error, then one
      call per statement, in the order the first call left them in, ends in the identical
      machine: including the statements dropped after a spend in mid-stack. The one exception is
      a machine closed without an output while a task due by the last stamp is still pending. */
  lemma BatchEqualsReplay(m: Machine, stack: seq<Witness>)
    requires Eval(m, stack).Returns? && (m.output.None? ==> Eval(m, stack).value.error.None?)
    requires stack != [] || m.error.None?
    ensures var b, sorted := Eval(m, stack).value, Sort(ByStamp, stack);
            && (!LeftBehind(b, sorted) ==> Replay(m, sorted) == Returns(b))
            && (Ordered(m.tasks) && NoneStale(m, m.tasks) ==>
                  (Replay(m, sorted) == Returns(b) <==> !LeftBehind(b, sorted)))
  {
    var sorted := Sort(ByStamp, stack);
    SortedStack(stack);
    SortMembers(ByStamp, stack);
    if m.output.Some? {
      FinalReplay(m, sorted);
    } else {
      var clean := m.(error := None);
      StackReplay(clean, sorted);
      if stack != [] {
        ReplayIgnoresError(m, sorted);
      } else {
        assert clean == m;
      }
    }
  }

  /** An error left by an earlier call has no effect on the next one. */
  lemma ReplayIgnoresError(m: Machine, stack: seq<Witness>)
    requires stack != [] && m.output.None?
    ensures Replay(m, stack) == Replay(m.(error := None), stack)
  {
    EvalOne(m, stack[0]);
    EvalOne(m.(error := None), stack[0]);
  }

  /** A stack that makes the one call throw makes the replay throw. */
  lemma {:induction false} BatchThrows(m: Machine, stack: seq<Witness>)
    requires m.output.None? && m.error.None? && EvalStack(m, stack).Throws?
    ensures Replay(m, stack).Throws?
    decreases |stack|
  {
    assert m.(error := None) == m;
    EvalOne(m, stack[0]);
    if EvalStep(m, stack[0]).Returns? {
      StepFrame(m, stack[0]);
      BatchThrows(EvalStep(m, stack[0]).value, stack[1..]);
    }
  }

  /** How many statements of the stack the one call gets to: a close or an error is the last. */
  function Reached(m: Machine, stack: seq<Witness>): (k: nat)
    ensures k <= |stack|
    decreases |stack|
  {
    if stack == [] then 0
    else
      var next := EvalStep(m, stack[0]);
      if next.Throws? || next.value.closed || next.value.error.Some? then 1 else 1 + Reached(next.value, stack[1..])
  }

  /** A replay goes the same way as the one call as far as that got, and then on to the
      statements behind. */
  lemma {:induction false} ReplayGoesOn(m: Machine, stack: seq<Witness>)
    requires m.output.None? && m.error.None? && EvalStack(m, stack).Returns?
    ensures Replay(m, stack) == Replay(EvalStack(m, stack).value, stack[Reached(m, stack)..])
    decreases |stack|
  {
    if stack != [] {
      var (next, rest) := (EvalStep(m, stack[0]).value, stack[1..]);
      assert m.(error := None) == m;
      EvalOne(m, stack[0]);
      StepFrame(m, stack[0]);
      if next.closed || next.error.Some? {
        assert stack[1..] == rest;
      } else {
        ReplayGoesOn(next, rest);
        assert rest[Reached(next, rest)..] == stack[Reached(m, stack)..];
      }
    }
  }

  /** No step back, and no new step means no new commit. */
  predicate Onward(m: Machine, n: Machine) {
    m.step <= n.step && (n.step == m.step ==> Agree(n, m))
  }

  lemma OnwardEvent(m: Machine, n: Machine, e: Event)
    requires Onward(m, n) && Legal(n, e)
    ensures Onward(m, Apply(n, e))
  {
    match e
    case SetError(_) =>
    case DropTask =>
    case Scheduled(input) => AttemptSteps(n, input);
    case Stated(wit) =>
      if Loads(n, wit) {
        AttemptSteps(Record(n, wit), InputOf(wit));
      }
  }

  lemma AttemptSteps(m: Machine, input: Input)
    ensures Attempt(m, input) == m || Attempt(m, input).step == m.step + 1
  {
  }

  lemma {:induction false} ReplayOnward(m: Machine, n: Machine, stack: seq<Witness>)
    requires Onward(m, n) && Replay(n, stack).Returns?
    ensures Onward(m, Replay(n, stack).value)
    decreases |stack|
  {
    if stack != [] {
      var next := Eval(n, [stack[0]]).value;
      forall x, e | Onward(m, x) && Legal(x, e) ensures Onward(m, Apply(x, e)) {
        OnwardEvent(m, x, e);
      }
      var es := ServeTrace(n, Evaluate([stack[0]]), _ => true);
      TraceInvariant(x => Onward(m, x), _ => true, n, es, next);
      ReplayOnward(m, next, stack[1..]);
    }
  }

  /** The session verifier's answer, from the machine the one call left and the statements it
      did not get to: it throws if one of them throws, and passes if none of them commits, nor
      any task that their stamps make due. */
  function Verdict(b: Machine, behind: seq<Witness>): Call<bool> {
    var replay := Replay(b, behind);
    if replay.Throws? then Throws else Returns(replay.value.step == b.step)
  }

  /** Both executions compared, for every stack: also one that ends in an error. */
  lemma ComparedExactly(m: Machine, stack: seq<Witness>)
    requires m.output.None? && m.error.None? && EvalStack(m, stack).Returns?
    ensures var (b, replay) := (EvalStack(m, stack).value, Replay(m, stack));
            (if replay.Throws? then Throws else Returns(Agree(replay.value, b)))
            == Verdict(b, stack[Reached(m, stack)..])
  {
    var b := EvalStack(m, stack).value;
    ReplayGoesOn(m, stack);
    if Replay(m, stack).Returns? {
      ReplayOnward(b, b, stack[Reached(m, stack)..]);
    }
  }

  const REFUSED := SoloStatement("spend", Some("payout"), START + 1)
  const ACCEPTED := SoloStatement("close", None, START + 2)

  /** On a path that starts locked, the error of a spend ends the one call; a replay goes on to
      the close behind it, and the session verifier rejects. */
  lemma ErrorStopsBatch()
    ensures InitVm(SoloProposal(["payout"], [])).Returns?
    ensures var (m, stack) := (InitVm(SoloProposal(["payout"], [])).value, [REFUSED, ACCEPTED]);
            && Eval(m, stack).Returns? && Replay(m, stack).Returns?
            && Eval(m, stack).value.error == Some(PathLocked) && Eval(m, stack).value.step == 0
            && Replay(m, stack).value.closed && Replay(m, stack).value.step == 1
            && Verdict(Eval(m, stack).value, stack[Reached(m, stack)..]) == Returns(false)
  {
    hide EvalStep, Sort, InitVm;
    OneLockedStart();
    var (m, stack) := (InitVm(SoloProposal(["payout"], [])).value, [REFUSED, ACCEPTED]);
    assert stack[1..] == [ACCEPTED] && [ACCEPTED][1..] == [];
    assert SortedBy(ByStamp, stack);
    SortOfSorted(ByStamp, stack);
    RefusedStep(m);
    var b := SoloRecorded(m, "spend", Some("payout")).(error := Some(PathLocked));
    assert EvalStack(m, stack) == Returns(b) && Reached(m, stack) == 1;
    EvalOne(b, ACCEPTED);
    AcceptedStep(m, b.(error := None));
    assert m.(error := None) == m;
    ReplayGoesOn(m, stack);
    assert Replay(b, [ACCEPTED]) == Eval(b, [ACCEPTED]);
  }

  lemma RefusedStep(m: Machine)
    requires OneLocked(m)
    ensures EvalStep(m, REFUSED) == Returns(SoloRecorded(m, "spend", Some("payout")).(error := Some(PathLocked)))
  {
    hide EvalStep;
    assert RunSchedule(m, START + 1) == m;
    SoloStep(m, m, "spend", Some("payout"), START + 1);
    assert FindPath(m.paths, "payout") == 0;
  }

  lemma AcceptedStep(m: Machine, b: Machine)
    requires OneLocked(m) && b == SoloRecorded(m, "spend", Some("payout"))
    ensures var next := EvalStep(b, ACCEPTED);
            next.Returns? && next.value.closed && next.value.step == 1 && next.value.output.None?
  {
    hide EvalStep;
    assert VoteLabel(Some("payout"), "spend") == "payout/spend" && VoteLabel(None, "close") == "null/close";
    assert |"null/close"| != |"payout/spend"|;
    assert b.store[0].ballots == [Ballot("payout/spend", [ALICE])];
    assert RunSchedule(b, START + 2) == b;
    SoloStep(b, b, "close", None, START + 2);
  }

  /** A failing statement is all or nothing on machine state: apart from the error and the
      votes on record, what it leaves is what the schedule alone would have left. */
  lemma FailedStatement(m: Machine, wit: Witness)
    requires m.output.None? && Eval(m, [wit]).Returns? && Eval(m, [wit]).value.error.Some?
    ensures var n, ran := Eval(m, [wit]).value, EvalSchedule(m, wit.tmpl.stamp);
            && n == ran.(error := n.error, store := n.store)
            && !n.closed
  {
    EvalOne(m, wit);
    var clean := m.(error := None);
    ScheduleIgnoresError(m, clean, wit.tmpl.stamp);
    var ran := RunSchedule(clean, wit.tmpl.stamp);
    ScheduleKeepsError(clean, wit.tmpl.stamp);
    ProgramFrame(ran, wit);
    FailedProgram(ran, wit);
  }

  lemma AttemptIgnoresError(m: Machine, n: Machine, input: Input)
    requires n == m.(error := n.error)
    ensures Attempt(n, input) == Attempt(m, input).(error := n.error)
    ensures Stops(n, input) <==> Stops(m, input)
  {
    hide OutputText, StatusAfter, RunPathAction, FindPath;
    if input.action != "close" && input.path.Some? && FindPath(m.paths, input.path.value) < |m.paths| {
      var i := FindPath(m.paths, input.path.value);
      var ended := RunPathAction(input.action, m.paths[i].state, m.status);
      assert ended.Ok? || ended.Err? || ended.Fault?;
    }
  }

  lemma {:induction false} InputsIgnoreError(m: Machine, n: Machine, inputs: seq<Input>)
    requires n == m.(error := n.error)
    ensures RunInputs(n, inputs) == RunInputs(m, inputs).(error := n.error)
    decreases |inputs|
  {
    hide Update, Attempt, Stops;
    if inputs != [] {
      AttemptIgnoresError(m, n, inputs[0]);
      InputsIgnoreError(Attempt(m, inputs[0]), Attempt(n, inputs[0]), inputs[1..]);
    }
  }

  lemma {:induction false} DueIgnoresError(m: Machine, n: Machine, due: seq<Task>)
    requires n == m.(error := n.error)
    ensures RunDue(n, due) == RunDue(m, due).(error := n.error)
    decreases |due|
  {
    hide RunInputs, Inputs;
    if due != [] {
      InputsIgnoreError(m, n, TaskInputs(m, due[0]));
      DueIgnoresError(Shift(RunTask(m, due[0])), Shift(RunTask(n, due[0])), due[1..]);
    }
  }

  lemma ScheduleIgnoresError(m: Machine, n: Machine, stopAt: int)
    requires n == m.(error := n.error)
    ensures RunSchedule(n, stopAt) == RunSchedule(m, stopAt).(error := n.error)
  {
    DueFrame(m, n, m.tasks, stopAt);
    DueIgnoresError(m, n, Due(m, m.tasks, stopAt));
  }

  /* ---------- the session verifier ---------- */

  /** The fields `verify_contract_execution` compares. */
  predicate Agree(a: Machine, b: Machine) {
    && a.activeAt == b.activeAt && a.closed == b.closed && a.closedAt == b.closedAt
    && a.commitAt == b.commitAt && a.engine == b.engine && a.expiresAt == b.expiresAt
    && a.head == b.head && a.output == b.output && a.step == b.step && a.vmid == b.vmid
  }

  /** `verify_contract_execution`: start over, one call per statement, then compare. */
  method VerifyExecution(c: Config, vmdata: Machine, statements: seq<Witness>) returns (ok: Call<bool>)
    ensures ok == if InitVm(c).Throws? || Replay(InitVm(c).value, statements).Throws? then Throws
                  else Returns(Agree(Replay(InitVm(c).value, statements).value, vmdata))
    ensures ok.Returns? ==>
              var r := Replay(InitVm(c).value, statements).value;
              ok.value <==> && vmdata.head == r.head && vmdata.step == r.step && vmdata.commitAt == r.commitAt
                            && vmdata.output == r.output && vmdata.closed == r.closed && vmdata.closedAt == r.closedAt
                            && vmdata.vmid == r.vmid && vmdata.engine == r.engine
                            && vmdata.activeAt == r.activeAt && vmdata.expiresAt == r.expiresAt
  {
    var init := InitVm(c);
    if init.Throws? {
      return Throws;
    }
    var vmstate := init.value;
    for i := 0 to |statements|
      invariant Replay(init.value, statements) == Replay(vmstate, statements[i..])
    {
      assert statements[i..][1..] == statements[i + 1..];
      var one := new Witness[1](_ => statements[i]);
      assert one[..] == [statements[i]];
      var next := Vm.EvalWitness(vmstate, one);
      if next.Throws? {
        return Throws;
      }
      vmstate := next.value;
    }
    assert statements[|statements|..] == [];
    return Returns(Agree(vmstate, vmdata));
  }

  /** The two executions of `verify_contract_session`. The first sorts the caller's statements,
      so the second replays them in stamp order. The answer, for every stack, is the verdict on
      the statements behind the one at which the first execution ended. */
  method VerifySession(c: Config, statements: array<Witness>) returns (ok: Call<bool>)
    modifies statements
    ensures statements[..] == old(statements[..]) || statements[..] == Sort(ByStamp, old(statements[..]))
    ensures var start := InitVm(c);
            start.Returns? && Eval(start.value, old(statements[..])).Returns? ==>
              var b := Eval(start.value, old(statements[..])).value;
              && statements[..] == Sort(ByStamp, old(statements[..]))
              && ok == Verdict(b, statements[..][Reached(start.value, statements[..])..])
              && (b.error.None? && !LeftBehind(b, statements[..]) ==> ok == Returns(true))
    ensures InitVm(c).Throws? || Eval(InitVm(c).value, old(statements[..])).Throws? ==> ok == Throws
  {
    var start := InitVm(c);
    if start.Throws? {
      return Throws;
    }
    ghost var stack := statements[..];
    var vmstate := Vm.EvalWitness(start.value, statements);
    if vmstate.Throws? {
      return Throws;
    }
    ok := VerifyExecution(c, vmstate.value, statements[..]);
    assert start.value.(error := None) == start.value;
    ComparedExactly(start.value, Sort(ByStamp, stack));
    if vmstate.value.error.None? && !LeftBehind(vmstate.value, statements[..]) {
      BatchEqualsReplay(start.value, stack);
    }
  }
}
