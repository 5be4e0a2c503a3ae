/** The machine as the code runs it: an object whose methods update its fields.
    Every method is tied to the function of module Cvm that gives its meaning. */
module Vm {
  import opened Basics
  import opened Labels
  import opened Sorting
  import opened Cvm

  class CVMData {
    const activeAt: int
    var closed: bool
    var closedAt: Option<int>
    var commitAt: int
    const engine: string
    var error: Option<VmError>
    const expiresAt: int
    var head: Head
    var output: Option<string>
    const pathnames: seq<string>
    const programs: seq<ProgramData>
    var paths: seq<PathEntry>
    var status: Status
    var store: seq<StoreEntry>
    var step: nat
    var tasks: seq<Task>
    const updatedAt: int
    const vmid: string

    /** The machine's present value; also what `serialize_vmstate` returns. */
    function Model(): Machine
      reads this
    {
      Machine(activeAt, closed, closedAt, commitAt, engine, error, expiresAt, head, output, pathnames,
              programs, paths, status, store, step, tasks, updatedAt, vmid)
    }

    /** `revive_vmstate`: a private copy of the caller's data. */
    constructor Revive(data: Machine)
      ensures Model() == data
    {
      activeAt, closed, closedAt, commitAt := data.activeAt, data.closed, data.closedAt, data.commitAt;
      engine, error, expiresAt, head := data.engine, data.error, data.expiresAt, data.head;
      output, pathnames, programs, paths := data.output, data.pathnames, data.programs, data.paths;
      status, store, step, tasks := data.status, data.store, data.step, data.tasks;
      updatedAt, vmid := data.updatedAt, data.vmid;
    }

    /** `update_vm_state`: an input that is not accepted leaves every field alone. */
    method UpdateVmState(input: Input) returns (ended: Outcome<(), VmError>)
      modifies this
      ensures Model() == Attempt(old(Model()), input)
      ensures ended == Ending(Update(old(Model()), input))
    {
      if input.stamp < commitAt {
        return Err(BeforeCommit(input.stamp, commitAt));
      } else if input.stamp >= expiresAt {
        return Err(Expired(input.stamp, expiresAt));
      }
      if input.action == "close" {
        status := Status.Closed;
      } else if input.action in PATH_ACTIONS {
        if input.path.None? {
          return Fault;
        }
        var i := FindPath(paths, input.path.value);
        if i == |paths| {
          return Fault;
        }
        var state := RunPathAction(input.action, paths[i].state, status);
        if state.Err? {
          return Err(state.error);
        } else if state.Fault? {
          return Fault;
        }
        paths := paths[i := PathEntry(input.path.value, state.value)];
        status := StatusAfter(status, state.value);
      } else {
        return Fault;
      }
      Commit(input);
      return Ok(());
    }

    /** The bookkeeping at the end of `update_vm_state`. */
    method Commit(input: Input)
      modifies this
      ensures Model() == Cvm.Commit(old(Model()), input)
    {
      step := step + 1;
      commitAt := input.stamp;
      head := Link(input.wid, head, OutputText(output), step, input.stamp);
      if status.Closed? || status.Spent? {
        closed := true;
        closedAt := Some(input.stamp);
        output := input.path;
      }
    }

    /** The `try` around one input of a task; `stop` is the test on the output inside it. */
    method TryInput(input: Input) returns (stop: bool)
      modifies this
      ensures Model() == Attempt(old(Model()), input)
      ensures stop == Stops(old(Model()), input)
    {
      var ended := UpdateVmState(input);
      return ended.Ok? && output.Some?;
    }

    /** The inner loop of `run_task`: one action over a list of paths. */
    method RunPaths(action: string, plist: seq<string>, stamp: int, wid: Wid, ghost later: seq<Input>)
      returns (stop: bool)
      modifies this
      ensures RunInputs(old(Model()), ActionInputs(action, plist, stamp, wid) + later)
           == if stop then Model() else RunInputs(Model(), later)
    {
      ghost var target := RunInputs(Model(), ActionInputs(action, plist, stamp, wid) + later);
      for j := 0 to |plist|
        invariant target == RunInputs(Model(), ActionInputs(action, plist[j..], stamp, wid) + later)
      {
        assert plist[j..][1..] == plist[j + 1..];
        var input := Input(action, Some(plist[j]), stamp, wid);
        RunInputsStep(Model(), input, ActionInputs(action, plist[j + 1..], stamp, wid), later);
        stop := TryInput(input);
        if stop {
          return;
        }
      }
      assert plist[|plist|..] == [] && [] + later == later;
      return false;
    }

    /** `run_task`: the loop over the task's actions. */
    method RunTask(task: Task)
      modifies this
      ensures Model() == Cvm.RunTask(old(Model()), task)
    {
      var alist := AccessList(task.actions, VALID_ACTIONS);
      var plist := AccessList(task.paths, PathNames(paths));
      var stamp := activeAt + task.timer;
      var wid := MachineId(vmid);
      ghost var target := Cvm.RunTask(Model(), task);
      for i := 0 to |alist|
        invariant target == RunInputs(Model(), Inputs(alist[i..], plist, stamp, wid))
      {
        ghost var later := Inputs(alist[i + 1..], plist, stamp, wid);
        assert alist[i..][1..] == alist[i + 1..];
        if alist[i] in PATH_ACTIONS {
          var stop := RunPaths(alist[i], plist, stamp, wid, later);
          if stop {
            return;
          }
        } else {
          var input := Input(alist[i], None, stamp, wid);
          RunInputsStep(Model(), input, [], later);
          NoPathNoOutput(Model(), input);
          var _ := TryInput(input);
          assert [] + later == later;
        }
      }
      assert alist[|alist|..] == [];
    }

    /** `run_schedule`: walks a copy of the due tasks while it shifts the real queue. */
    method RunSchedule(stopAt: int)
      modifies this
      ensures Model() == Cvm.RunSchedule(old(Model()), stopAt)
    {
      var due := Due(Model(), tasks, stopAt);
      ghost var target := Cvm.RunSchedule(Model(), stopAt);
      for i := 0 to |due|
        invariant target == RunDue(Model(), due[i..])
      {
        assert due[i..][1..] == due[i + 1..];
        RunTask(due[i]);
        tasks := if tasks == [] then [] else tasks[1..];
        if output.Some? {
          return;
        }
      }
      assert due[|due|..] == [];
    }

    /** `exec` of the endorse method: votes go into the store one signature at a time. */
    method ExecEndorse(k: nat, threshold: int, members: seq<string>, name: string, sigs: seq<Proof>)
      returns (verdict: Verdict)
      requires k < |store|
      modifies this`store
      ensures var (ballots, v) := Cvm.ExecEndorse(threshold, members, old(store[k].ballots), name, sigs);
              verdict == v && store == old(store)[k := StoreEntry(old(store[k].progId), ballots)]
    {
      ghost var before := store[k].ballots;
      for i := 0 to |sigs|
        invariant k < |store| && store == old(store)[k := StoreEntry(old(store[k].progId), store[k].ballots)]
        invariant Cvm.ExecEndorse(threshold, members, before, name, sigs)
               == Cvm.ExecEndorse(threshold, members, store[k].ballots, name, sigs[i..])
      {
        assert sigs[i..][1..] == sigs[i + 1..];
        var pub := sigs[i].pub;
        if pub !in members {
          return Bad(NotAMember);
        }
        var count := RecordEntry(k, name, pub);
        if count.Err? {
          return Bad(count.error);
        } else if count.Ok? && count.value >= threshold {
          return Yes;
        }
      }
      assert sigs[|sigs|..] == [];
      return No;
    }

    /** `record_entry`: one vote, answered with the number of votes under its label. */
    method RecordEntry(k: nat, name: string, pub: string) returns (count: Outcome<nat, VmError>)
      requires k < |store|
      modifies this`store
      ensures match Cvm.RecordEntry(old(store[k].ballots), name, pub)
              case Ok(ballots) =>
                && count == Ok(|Votes(ballots, name)|)
                && store == old(store)[k := StoreEntry(old(store[k].progId), ballots)]
              case Err(e) => count == Err(e) && store == old(store)
              case Fault => false
    {
      var ballots := store[k].ballots;
      var i := FindBallot(ballots, name);
      var keys: seq<string> := [pub];
      if i < |ballots| {
        keys := ballots[i].keys;
        if pub in keys {
          return Err(RecordExists(name, pub));
        }
        keys := keys + [pub];
      }
      BallotFound(ballots, name, keys);
      if i == |ballots| {
        ballots := ballots + [Ballot(name, keys)];
      } else {
        ballots := ballots[i := Ballot(name, keys)];
      }
      store := store[k := StoreEntry(store[k].progId, ballots)];
      return Ok(|keys|);
    }

    /** `run_program`. */
    method RunProgram(wit: Witness) returns (ended: Outcome<(), VmError>)
      modifies this
      ensures (Model(), ended) == Cvm.RunProgram(old(Model()), wit)
    {
      if !Loads(Model(), wit) {
        return Fault;
      }
      var prog := programs[FindProgram(programs, wit.tmpl.progId)];
      var k := FindStore(store, wit.tmpl.progId);
      var verdict;
      match prog.mthd {
        case Endorse(threshold, members) =>
          verdict := ExecEndorse(k, threshold, members, VoteLabel(wit.tmpl.path, wit.tmpl.action), wit.sigs);
        case Claim(lock, members) =>
          verdict := ExecClaim(lock.value, members, wit.tmpl.args, wit.sigs);
          assert store == store[k := StoreEntry(wit.tmpl.progId, store[k].ballots)];
        case Unknown(_) =>
          assert false;
      }
      assert Model() == Record(old(Model()), wit) && verdict == Decide(old(Model()), wit).1;
      match verdict {
        case Bad(e) => return Err(e);
        case No => return Ok(());
        case Yes => ended := UpdateVmState(InputOf(wit));
      }
    }
  }

  lemma RunInputsStep(m: Machine, input: Input, rest: seq<Input>, later: seq<Input>)
    ensures RunInputs(m, ([input] + rest) + later)
         == if Stops(m, input) then Attempt(m, input) else RunInputs(Attempt(m, input), rest + later)
  {
    assert ([input] + rest) + later == [input] + (rest + later);
    assert ([input] + (rest + later))[1..] == rest + later;
  }

  /** An input without a path never produces an output of its own. */
  lemma NoPathNoOutput(m: Machine, input: Input)
    requires input.path.None?
    ensures !Stops(m, input)
  {
  }

  /** After a vote is written under a label, looking the label up finds it. */
  lemma BallotFound(ballots: seq<Ballot>, name: string, keys: seq<string>)
    ensures var i := FindBallot(ballots, name);
            var next := if i == |ballots| then ballots + [Ballot(name, keys)] else ballots[i := Ballot(name, keys)];
            FindBallot(next, name) == i && Votes(next, name) == keys
  {
    var i := FindBallot(ballots, name);
    var next := if i == |ballots| then ballots + [Ballot(name, keys)] else ballots[i := Ballot(name, keys)];
    var j := FindBallot(next, name);
    assert next[i].name == name;
    assert forall n | 0 <= n < i :: next[n] == ballots[n];
  }

  /** `get_statements`: sorts the caller's array in place. */
  method GetStatements(statements: array<Witness>)
    modifies statements
    ensures statements[..] == Sort(ByStamp, old(statements[..]))
  {
    var sorted := Sort(ByStamp, statements[..]);
    SortMembers(ByStamp, statements[..]);
    forall i | 0 <= i < statements.Length {
      statements[i] := sorted[i];
    }
  }

  /** `eval_witness`: the caller's machine is not changed; the caller's stack is sorted. */
  method EvalWitness(data: Machine, statements: array<Witness>) returns (result: Call<Machine>)
    modifies statements
    ensures result == Eval(data, old(statements[..]))
    ensures statements[..] == if data.output.Some? then old(statements[..]) else Sort(ByStamp, old(statements[..]))
  {
    if data.output.Some? {
      return Returns(data);
    }
    var vm := new CVMData.Revive(data);
    vm.error := None;
    GetStatements(statements);
    ghost var target := Eval(data, old(statements[..]));
    assert statements[0..] == statements[..];
    for i := 0 to statements.Length
      invariant statements[..] == Sort(ByStamp, old(statements[..]))
      invariant target == EvalStack(vm.Model(), statements[i..])
    {
      assert statements[i..][1..] == statements[i + 1..];
      var returned := EvalStatement(vm, statements[i]);
      if !returned {
        return Throws;
      } else if vm.closed || vm.error.Some? {
        return Returns(vm.Model());
      }
    }
    return Returns(vm.Model());
  }

  /** The body of the loop in `eval_witness`; the answer is whether it returned or threw. */
  method EvalStatement(vm: CVMData, statement: Witness) returns (returned: bool)
    modifies vm
    ensures returned == EvalStep(old(vm.Model()), statement).Returns?
    ensures returned ==> vm.Model() == EvalStep(old(vm.Model()), statement).value
  {
    vm.RunSchedule(statement.tmpl.stamp);
    if vm.closed {
      return true;
    }
    var ended := vm.RunProgram(statement);
    if ended.Err? {
      vm.error := Some(ended.error);
    }
    return !ended.Fault?;
  }

  /** `eval_schedule`. */
  method EvalSchedule(data: Machine, stopAt: int) returns (result: Machine)
    ensures result == Cvm.EvalSchedule(data, stopAt)
  {
    if data.output.Some? {
      return data;
    }
    var vm := new CVMData.Revive(data);
    vm.RunSchedule(stopAt);
    return vm.Model();
  }

  /** `init_path_state`: the loop over the programs, then the check on the terms. */
  method InitPathState(pathname: string, programs: seq<ProgramEntry>) returns (result: Call<PathState>)
    ensures result == Cvm.InitPathState(pathname, programs)
  {
    var terms := Terms(false, false, false);
    var pstate := PathState.Open;
    for i := 0 to |programs|
      invariant (terms, pstate) == AllTerms(pathname, programs[..i])
    {
      assert programs[..i + 1][..i] == programs[..i];
      var prog := programs[i];
      if Regex(pathname, prog.paths) {
        if Regex("dispute", prog.actions) { terms := terms.(canDispute := true); }
        if Regex("resolve", prog.actions) { terms := terms.(canResolve := true); }
        if Regex("lock", prog.actions) { terms := terms.(canLock := true); }
        if Regex("unlock", prog.actions) { pstate := PathState.Locked; }
      }
    }
    assert programs[..|programs|] == programs;
    if terms.canDispute && !terms.canResolve {
      return Throws;
    }
    return Returns(pstate);
  }

  /** `init_vm_state`. */
  method InitVmState(pathnames: seq<string>, programs: seq<ProgramEntry>) returns (result: Call<seq<PathEntry>>)
    ensures result == InitPaths(pathnames, programs)
  {
    var states: seq<PathEntry> := [];
    for i := 0 to |pathnames|
      invariant Returns(states) == InitPaths(pathnames[..i], programs)
    {
      assert pathnames[..i + 1][..i] == pathnames[..i];
      var state := InitPathState(pathnames[i], programs);
      if state.Throws? {
        InitPathsThrows(pathnames, programs, i + 1);
        return Throws;
      }
      states := states + [PathEntry(pathnames[i], state.value)];
    }
    assert pathnames[..|pathnames|] == pathnames;
    return Returns(states);
  }

  /** A path that cannot be set up stops the whole initialisation. */
  lemma {:induction false} InitPathsThrows(pathnames: seq<string>, programs: seq<ProgramEntry>, k: nat)
    requires k <= |pathnames| && InitPaths(pathnames[..k], programs).Throws?
    ensures InitPaths(pathnames, programs).Throws?
  {
    if k < |pathnames| {
      assert pathnames[..k] == pathnames[..|pathnames| - 1][..k];
      InitPathsThrows(pathnames[..|pathnames| - 1], programs, k);
    } else {
      assert pathnames[..k] == pathnames;
    }
  }
}
