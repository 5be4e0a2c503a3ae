/** What a task tries, exactly, and what that brings about. */
module Tasks {
  import opened Basics
  import opened Labels
  import opened Sorting
  import opened Cvm
  import opened Traces
  import opened Schedules
  import opened Outcomes
  import opened Acceptance

  /* ---------- the inputs ---------- */

  lemma {:induction false} ActionInputsExactly(action: string, plist: seq<string>, stamp: int, wid: Wid)
    ensures var inputs := ActionInputs(action, plist, stamp, wid);
            |inputs| == |plist| && forall k | 0 <= k < |plist| :: inputs[k] == Input(action, Some(plist[k]), stamp, wid)
  {
    if plist != [] {
      ActionInputsExactly(action, plist[1..], stamp, wid);
    }
  }

  /** Action by action: the inputs of two lists of actions are those of the first and then those
      of the second; and one action goes through the paths in order, or stands alone. */
  lemma {:induction false} InputsInOrder(a: seq<string>, b: seq<string>, plist: seq<string>, stamp: int, wid: Wid)
    ensures Inputs(a + b, plist, stamp, wid) == Inputs(a, plist, stamp, wid) + Inputs(b, plist, stamp, wid)
  {
    if a == [] {
      assert a + b == b;
    } else {
      assert (a + b)[1..] == a[1..] + b;
      InputsInOrder(a[1..], b, plist, stamp, wid);
      var first := if a[0] in PATH_ACTIONS then ActionInputs(a[0], plist, stamp, wid)
                   else [Input(a[0], None, stamp, wid)];
      var (x, y) := (Inputs(a[1..], plist, stamp, wid), Inputs(b, plist, stamp, wid));
      assert first + (x + y) == first + x + y;
    }
  }

  lemma OneAction(action: string, plist: seq<string>, stamp: int, wid: Wid)
    ensures var inputs := Inputs([action], plist, stamp, wid);
            if action in PATH_ACTIONS then
              && |inputs| == |plist|
              && forall k | 0 <= k < |plist| :: inputs[k] == Input(action, Some(plist[k]), stamp, wid)
            else
              inputs == [Input(action, None, stamp, wid)]
  {
    assert [action][1..] == [];
    ActionInputsExactly(action, plist, stamp, wid);
  }

  /** A task tries every listed action, on every listed path if it is a path action, and nothing else. */
  lemma {:induction false} InputsExactly(alist: seq<string>, plist: seq<string>, stamp: int, wid: Wid, input: Input)
    ensures input in Inputs(alist, plist, stamp, wid)
       <==> && input.stamp == stamp && input.wid == wid && input.action in alist
            && if input.action in PATH_ACTIONS then input.path.Some? && input.path.value in plist else input.path.None?
  {
    if alist != [] {
      InputsExactly(alist[1..], plist, stamp, wid, input);
      ActionInputsExactly(alist[0], plist, stamp, wid);
      if input.action in PATH_ACTIONS && input.action == alist[0] && input.path.Some? && input.path.value in plist {
        var k :| 0 <= k < |plist| && plist[k] == input.path.value;
        assert ActionInputs(alist[0], plist, stamp, wid)[k] == Input(alist[0], Some(plist[k]), stamp, wid);
      }
    }
  }

  /* ---------- trying them ---------- */

  /** Inputs are tried one after the other, and only an output ends it. */
  lemma {:induction false} InputsSplit(m: Machine, a: seq<Input>, b: seq<Input>)
    requires m.output.None?
    ensures RunInputs(m, a + b)
         == if RunInputs(m, a).output.Some? then RunInputs(m, a) else RunInputs(RunInputs(m, a), b)
    decreases |a|
  {
    hide Update;
    if a == [] {
      assert a + b == b;
    } else {
      assert (a + b)[1..] == a[1..] + b;
      if !Stops(m, a[0]) {
        InputsSplit(Attempt(m, a[0]), a[1..], b);
      }
    }
  }

  lemma OneInput(m: Machine, input: Input)
    ensures RunInputs(m, [input]) == Attempt(m, input)
  {
    assert [input][1..] == [] && RunInputs(Attempt(m, input), []) == Attempt(m, input);
  }

  /** Every listed input has its turn on some machine on the way, unless an output came first. */
  lemma InputTurn(m: Machine, inputs: seq<Input>, k: nat)
    requires m.output.None? && k < |inputs|
    ensures var x := RunInputs(m, inputs[..k]);
            RunInputs(m, inputs) == if x.output.Some? then x
                                    else if Attempt(x, inputs[k]).output.Some? then Attempt(x, inputs[k])
                                    else RunInputs(Attempt(x, inputs[k]), inputs[k + 1..])
  {
    hide RunInputs, Attempt;
    assert inputs == inputs[..k] + ([inputs[k]] + inputs[k + 1..]);
    InputsSplit(m, inputs[..k], [inputs[k]] + inputs[k + 1..]);
    var x := RunInputs(m, inputs[..k]);
    if x.output.None? {
      InputsSplit(x, [inputs[k]], inputs[k + 1..]);
      OneInput(x, inputs[k]);
    }
  }

  /* ---------- what that brings about ---------- */

  /** A disputed path stays disputed until there is an output. */
  lemma {:induction false} StaysDisputed(m: Machine, inputs: seq<Input>, i: nat)
    requires m.output.None? && i < |m.paths| && m.paths[i].state.Disputed?
    requires forall input | input in inputs :: WellFormed(input)
    ensures var n := RunInputs(m, inputs);
            n.output.Some? || (|n.paths| == |m.paths| && n.paths[i] == m.paths[i])
    decreases |inputs|
  {
    hide Update;
    if inputs != [] {
      DisputedAttempt(m, inputs[0], i);
      if !Stops(m, inputs[0]) {
        StaysDisputed(Attempt(m, inputs[0]), inputs[1..], i);
      }
    }
  }

  lemma DisputedAttempt(m: Machine, input: Input, i: nat)
    requires i < |m.paths| && m.paths[i].state.Disputed? && WellFormed(input)
    ensures var n := Attempt(m, input);
            n.output.Some? || (|n.paths| == |m.paths| && n.paths[i] == m.paths[i])
  {
    hide Update;
    if Update(m, input).Ok? {
      Accepted(m, input);
    }
  }

  lemma {:induction false} InputsStayTimely(m: Machine, inputs: seq<Input>, stamp: int)
    requires m.commitAt <= stamp < m.expiresAt && forall i | i in inputs :: i.stamp == stamp
    ensures var n := RunInputs(m, inputs);
            n.commitAt <= stamp < n.expiresAt && PathNames(n.paths) == PathNames(m.paths) && |n.paths| == |m.paths|
    decreases |inputs|
  {
    hide Update;
    if inputs != [] {
      AttemptClock(m, inputs[0]);
      AttemptFrame(m, inputs[0]);
      AttemptNames(m, inputs[0]);
      AttemptSize(m, inputs[0]);
      InputsStayTimely(Attempt(m, inputs[0]), inputs[1..], stamp);
    }
  }

  lemma AttemptSize(m: Machine, input: Input)
    ensures |Attempt(m, input).paths| == |m.paths|
  {
  }

  /** A timely task that lists a dispute leaves every path it lists disputed, unless it ends in an
      output. */
  lemma TaskDisputesAll(m: Machine, task: Task, i: nat)
    requires m.output.None? && m.commitAt <= DueAt(m, task) < m.expiresAt
    requires i < |m.paths| && forall j | 0 <= j < i :: m.paths[j].name != m.paths[i].name
    requires "dispute" in AccessList(task.actions, VALID_ACTIONS)
    requires m.paths[i].name in AccessList(task.paths, PathNames(m.paths))
    ensures var n := RunTask(m, task);
            n.output.Some? || (|n.paths| == |m.paths| && n.paths[i] == PathEntry(m.paths[i].name, PathState.Disputed))
  {
    hide Update, RunInputs, Attempt, Inputs;
    var (alist, plist) := (AccessList(task.actions, VALID_ACTIONS), AccessList(task.paths, PathNames(m.paths)));
    var (stamp, wid, inputs) := (DueAt(m, task), MachineId(m.vmid), TaskInputs(m, task));
    var input := Input("dispute", Some(m.paths[i].name), stamp, wid);
    InputsExactly(alist, plist, stamp, wid, input);
    InputsShape(alist, plist, stamp, wid);
    var k :| 0 <= k < |inputs| && inputs[k] == input;
    InputTurn(m, inputs, k);
    var x := RunInputs(m, inputs[..k]);
    InputsStayTimely(m, inputs[..k], stamp);
    SameNames(m.paths, x.paths);
    if x.output.None? {
      DisputeTurn(x, input, i);
      if Attempt(x, input).output.None? {
        StaysDisputed(Attempt(x, input), inputs[k + 1..], i);
      }
    }
  }

  lemma {:induction false} SameNames(a: seq<PathEntry>, b: seq<PathEntry>)
    requires PathNames(a) == PathNames(b) && |a| == |b|
    ensures forall i | 0 <= i < |a| :: a[i].name == b[i].name
  {
    if a != [] {
      assert PathNames(a)[1..] == PathNames(a[1..]) && PathNames(b)[1..] == PathNames(b[1..]);
      assert PathNames(a)[0] == a[0].name && PathNames(b)[0] == b[0].name;
      SameNames(a[1..], b[1..]);
    }
  }

  lemma DisputeTurn(m: Machine, input: Input, i: nat)
    requires i < |m.paths| && forall j | 0 <= j < i :: m.paths[j].name != m.paths[i].name
    requires input.action == "dispute" && input.path == Some(m.paths[i].name)
    requires m.commitAt <= input.stamp < m.expiresAt
    ensures |Attempt(m, input).paths| == |m.paths|
    ensures Attempt(m, input).paths[i] == PathEntry(m.paths[i].name, PathState.Disputed)
  {
    assert FindPath(m.paths, m.paths[i].name) == i;
  }

  /** A timely task that lists a close leaves the machine closed. */
  lemma TaskCloses(m: Machine, task: Task)
    requires m.output.None? && m.commitAt <= DueAt(m, task) < m.expiresAt
    requires "close" in AccessList(task.actions, VALID_ACTIONS)
    ensures RunTask(m, task).closed
  {
    hide Update, RunInputs, Attempt, Inputs;
    var (alist, plist) := (AccessList(task.actions, VALID_ACTIONS), AccessList(task.paths, PathNames(m.paths)));
    var (stamp, wid, inputs) := (DueAt(m, task), MachineId(m.vmid), TaskInputs(m, task));
    var input := Input("close", None, stamp, wid);
    InputsExactly(alist, plist, stamp, wid, input);
    InputsShape(alist, plist, stamp, wid);
    var k :| 0 <= k < |inputs| && inputs[k] == input;
    InputTurn(m, inputs, k);
    var x := RunInputs(m, inputs[..k]);
    InputsStayTimely(m, inputs[..k], stamp);
    OutputCloses(m, inputs[..k]);
    if x.output.None? {
      CloseTurn(x, input);
      StaysClosed(Attempt(x, input), inputs[k + 1..]);
    }
  }

  lemma CloseTurn(m: Machine, input: Input)
    requires input.action == "close" && m.commitAt <= input.stamp < m.expiresAt
    ensures Attempt(m, input).closed
  {
  }

  lemma {:induction false} StaysClosed(m: Machine, inputs: seq<Input>)
    requires m.closed
    ensures RunInputs(m, inputs).closed
    decreases |inputs|
  {
    hide Update;
    if inputs != [] {
      AttemptFrame(m, inputs[0]);
      StaysClosed(Attempt(m, inputs[0]), inputs[1..]);
    }
  }

  lemma {:induction false} OutputCloses(m: Machine, inputs: seq<Input>)
    requires m.output.None?
    ensures RunInputs(m, inputs).output.Some? ==> RunInputs(m, inputs).closed
    decreases |inputs|
  {
    hide Update;
    if inputs != [] {
      AttemptFrame(m, inputs[0]);
      if !Stops(m, inputs[0]) {
        OutputCloses(Attempt(m, inputs[0]), inputs[1..]);
      }
    }
  }
}
