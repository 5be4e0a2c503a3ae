/** What the machine accepts, exactly: one input, and one statement on any run. */
module Acceptance {
  import opened Basics
  import opened Labels
  import opened Sorting
  import opened Cvm
  import opened Traces
  import opened Schedules
  import opened Outcomes
  import opened Ballots
  import opened Guards

  /* ---------- one input ---------- */

  /** The state a path action aims at, if the path can take it from where it is. */
  function Target(action: string, state: PathState, status: Status): Option<PathState> {
    if action == "spend" then (if state.Open? || state.Spent? then Some(PathState.Spent) else None)
    else if action == "lock" then (if state.Open? || state.Spent? then Some(PathState.Locked) else None)
    else if action == "dispute" then (if state.Disputed? then None else Some(PathState.Disputed))
    else if action == "resolve" then (if status.Disputed? then Some(PathState.Spent) else None)
    else None
  }

  predicate Timely(m: Machine, stamp: int) {
    m.commitAt <= stamp < m.expiresAt
  }

  /** The state of the first path with this name. */
  ghost predicate StateOf(m: Machine, name: string, state: PathState) {
    exists i :: 0 <= i < |m.paths| && m.paths[i] == PathEntry(name, state)
             && forall j | 0 <= j < i :: m.paths[j].name != name
  }

  lemma PathFound(m: Machine, name: string)
    requires FindPath(m.paths, name) < |m.paths|
    ensures StateOf(m, name, m.paths[FindPath(m.paths, name)].state)
  {
    var i := FindPath(m.paths, name);
    assert m.paths[i] == PathEntry(name, m.paths[i].state);
  }

  /** When an input is accepted, exactly: in time, and a close, or an action that the state of
      an existing path allows. */
  lemma AcceptedExactly(m: Machine, input: Input)
    ensures Update(m, input).Ok?
       <==> && Timely(m, input.stamp)
            && (input.action == "close"
                || (input.path.Some? && exists state ::
                      StateOf(m, input.path.value, state) && Target(input.action, state, m.status).Some?))
  {
    hide Commit, OutputText;
    if input.path.Some? {
      if FindPath(m.paths, input.path.value) < |m.paths| {
        PathFound(m, input.path.value);
      }
    }
  }

  /** What an accepted input does to paths, status, closing and output. */
  lemma AcceptedEffect(m: Machine, input: Input, state: PathState)
    requires Update(m, input).Ok?
    requires input.action != "close" ==> input.path.Some? && StateOf(m, input.path.value, state)
    ensures var n := Update(m, input).value;
            && n.step == m.step + 1 && n.commitAt == input.stamp && n.error == m.error && n.store == m.store
            && (n.closed <==> m.closed || n.status.Closed? || n.status.Spent?)
            && (n.status.Closed? || n.status.Spent? ==> n.closedAt == Some(input.stamp) && n.output == input.path)
            && (!(n.status.Closed? || n.status.Spent?) ==> n.closedAt == m.closedAt && n.output == m.output)
            && if input.action == "close" then n.paths == m.paths && n.status.Closed?
               else
                 var target := Target(input.action, state, m.status);
                 && target.Some? && StateOf(n, input.path.value, target.value) && |n.paths| == |m.paths|
                 && (forall j | 0 <= j < |m.paths| && n.paths[j] != m.paths[j] :: m.paths[j].name == input.path.value)
                 && n.status == match target.value
                                case Spent => Status.Spent
                                case Disputed => Status.Disputed
                                case _ => m.status
  {
    hide OutputText;
    if input.action != "close" {
      var i := FindPath(m.paths, input.path.value);
      var n := Update(m, input).value;
      assert forall j | 0 <= j < i :: n.paths[j] == m.paths[j];
      assert n.paths[i] == PathEntry(input.path.value, n.paths[i].state);
    }
  }

  /** Why a path action is refused in the given state. */
  function Refusal(action: string, state: PathState): VmError {
    if action == "spend" then (if state.Locked? then PathLocked else InDispute)
    else if action == "lock" then (if state.Locked? then AlreadyLocked else InDispute)
    else if action == "dispute" then AlreadyDisputed
    else if action == "resolve" then NotDisputed
    else ActionNotFound
  }

  /** What happens to an input that is not accepted: out of time it gets one of the two clock
      errors, and in time the refusal of its path's state, or a throw if it is no action, or
      names no path of the machine. */
  lemma RefusedExactly(m: Machine, input: Input)
    requires !Update(m, input).Ok?
    ensures input.stamp < m.commitAt <==> Update(m, input) == Err(BeforeCommit(input.stamp, m.commitAt))
    ensures m.commitAt <= input.stamp && m.expiresAt <= input.stamp
       <==> Update(m, input) == Err(Expired(input.stamp, m.expiresAt))
    ensures Timely(m, input.stamp) ==>
              (Update(m, input).Fault? <==>
                 input.action !in PATH_ACTIONS || input.path.None? || !exists s :: StateOf(m, input.path.value, s))
    ensures Timely(m, input.stamp) && input.action in PATH_ACTIONS && input.path.Some? ==>
              forall s | StateOf(m, input.path.value, s) :: Update(m, input) == Err(Refusal(input.action, s))
  {
    hide Commit, OutputText;
    if input.path.Some? {
      forall s | StateOf(m, input.path.value, s)
        ensures FindPath(m.paths, input.path.value) < |m.paths|
             && m.paths[FindPath(m.paths, input.path.value)].state == s
      {
      }
      if FindPath(m.paths, input.path.value) < |m.paths| {
        PathFound(m, input.path.value);
      }
    }
  }

  /* ---------- one statement on any run ---------- */

  /** The program grants the statement its action, and its path where there is one. */
  predicate GrantsStatement(c: Config, prog: ProgramEntry, t: Template) {
    && Regex(t.action, prog.actions)
    && if t.path.None? then t.action !in PATH_ACTIONS
       else
         && t.action in PATH_ACTIONS && t.path.value != "null"
         && t.path.value in c.pathnames && Regex(t.path.value, prog.paths)
  }

  /** The program the machine finds under the statement's id. */
  predicate FindsProgram(c: Config, id: ProgId, prog: ProgramEntry) {
    exists i :: 0 <= i < |c.programs| && c.programs[i] == prog && ProgId(prog.mthd) == id
             && forall j | 0 <= j < i :: ProgId(c.programs[j].mthd) != id
  }

  lemma ProgramFound(c: Config, m: Machine, id: ProgId, prog: ProgramEntry)
    requires Shaped(c, m) && FindsProgram(c, id, prog)
    ensures FindProgram(m.programs, id) < |m.programs| && m.programs[FindProgram(m.programs, id)] == CreateProgram(prog)
    ensures FindStore(m.store, id) < |m.store|
  {
    var i :| 0 <= i < |c.programs| && c.programs[i] == prog && ProgId(prog.mthd) == id
          && forall j | 0 <= j < i :: ProgId(c.programs[j].mthd) != id;
  }

  predicate HexDigit(ch: char) {
    '0' <= ch <= '9' || 'a' <= ch <= 'f' || 'A' <= ch <= 'F'
  }

  /** The statement's first argument is a hash and the preimage of the lock, and its first
      signature is a member's. */
  predicate Claims(lock: Digest, members: seq<string>, wit: Witness) {
    && wit.tmpl.args != [] && |wit.tmpl.args[0]| == 64 && (forall ch | ch in wit.tmpl.args[0] :: HexDigit(ch))
    && Sha256(wit.tmpl.args[0]) == lock
    && wit.sigs != [] && wit.sigs[0].pub in members
  }

  lemma ClaimedExactly(lock: Digest, members: seq<string>, wit: Witness)
    ensures ExecClaim(lock, members, wit.tmpl.args, wit.sigs).Yes? <==> Claims(lock, members, wit)
  {
  }

  /** What it takes for a program to approve a statement, by its method. */
  ghost predicate Approves(m: Machine, wit: Witness, mthd: Method) {
    match mthd
    case Endorse(threshold, members) => Carries(m, wit, threshold, members)
    case Claim(lock, members) => lock.Some? && Claims(lock.value, members, wit)
    case Unknown(_) => false
  }

  /** How a call ends after the commit step. */
  function Answer(m: Machine, ended: Outcome<Machine, VmError>): Call<Machine> {
    if ended.Ok? then Returns(ended.value)
    else if ended.Err? then Returns(m.(error := Some(ended.error)))
    else Throws
  }

  /** The statement's outcome is that of its input, after the due tasks and with its votes on record. */
  lemma ApprovedOutcome(
    c: Config, rs: seq<Request>, wit: Witness, prog: ProgramEntry)
    requires Run(c, rs).Returns? && Run(c, rs).value.output.None?
    requires FindsProgram(c, wit.tmpl.progId, prog)
    requires GrantsStatement(c, prog, wit.tmpl) && Approves(Run(c, rs).value, wit, prog.mthd)
    requires Run(c, rs).value.commitAt <= wit.tmpl.stamp
    ensures var m := Run(c, rs).value;
            var ran := RunSchedule(m.(error := None), wit.tmpl.stamp);
            && ran.commitAt <= wit.tmpl.stamp && ran.expiresAt == c.expiresAt
            && (!ran.closed ==>
                  && Loads(ran, wit)
                  && Record(ran, wit) == ran.(store := Record(ran, wit).store)
                  && Eval(m, [wit]) == Answer(Record(ran, wit), Update(Record(ran, wit), InputOf(wit))))
  {
    hide Update, RunSchedule, Carries, Claims;
    var m := Run(c, rs).value;
    var clean := m.(error := None);
    var ran := RunSchedule(clean, wit.tmpl.stamp);
    ShapedRun(c, rs);
    assert Shaped(c, clean);
    ShapedSchedule(c, clean, wit.tmpl.stamp);
    ScheduleCommitAt(clean, wit.tmpl.stamp);
    EvalOne(m, wit);
    if !ran.closed {
      ProgramFound(c, ran, wit.tmpl.progId, prog);
      ApprovedProgram(m, ran, wit, prog.mthd);
    }
  }

  lemma ApprovedProgram(m: Machine, ran: Machine, wit: Witness, mthd: Method)
    requires ran.store == m.store && Approves(m, wit, mthd) && Loads(ran, wit)
    requires ran.programs[FindProgram(ran.programs, wit.tmpl.progId)].mthd == mthd
    ensures Record(ran, wit) == ran.(store := Record(ran, wit).store)
    ensures RunProgram(ran, wit)
         == (Attempt(Record(ran, wit), InputOf(wit)), Ending(Update(Record(ran, wit), InputOf(wit))))
  {
    hide Update, ExecClaim, Claims;
    match mthd
    case Endorse(threshold, members) =>
      var name := VoteLabel(wit.tmpl.path, wit.tmpl.action);
      var ballots := ran.store[FindStore(ran.store, wit.tmpl.progId)].ballots;
      assert VotesFor(m, wit.tmpl) == Votes(ballots, name);
      ApprovedExactly(threshold, members, ballots, name, wit.sigs);
    case Claim(lock, members) => ClaimedExactly(lock.value, members, wit);
  }

  /** The machine's state allows the statement's action. */
  ghost predicate Allowed(m: Machine, t: Template) {
    t.action == "close" || (t.path.Some? && exists s ::
      StateOf(m, t.path.value, s) && Target(t.action, s, m.status).Some?)
  }

  /** On every reachable machine without an output: a timely statement whose program grants and
      approves it is accepted if and only if, after the due tasks, the
      machine is still open and the state of its path allows its action. */
  lemma ApprovedAccepted(
    c: Config, rs: seq<Request>, wit: Witness, prog: ProgramEntry)
    requires Run(c, rs).Returns? && Run(c, rs).value.output.None?
    requires FindsProgram(c, wit.tmpl.progId, prog)
    requires GrantsStatement(c, prog, wit.tmpl) && Approves(Run(c, rs).value, wit, prog.mthd)
    requires Run(c, rs).value.commitAt <= wit.tmpl.stamp < c.expiresAt
    ensures var m := Run(c, rs).value;
            var ran := RunSchedule(m.(error := None), wit.tmpl.stamp);
            var n := Eval(m, [wit]);
            && (n.Throws? <==> !ran.closed && wit.tmpl.action !in VALID_ACTIONS)
            && ((n.Returns? && n.value.error.None? && n.value.step == ran.step + 1)
                <==> !ran.closed && Allowed(ran, wit.tmpl))
  {
    hide Update, RunSchedule, Approves, Loads, Record, Target;
    var m := Run(c, rs).value;
    var clean := m.(error := None);
    var (ran, t) := (RunSchedule(clean, wit.tmpl.stamp), wit.tmpl);
    ApprovedOutcome(c, rs, wit, prog);
    ScheduleKeepsError(clean, wit.tmpl.stamp);
    EvalOne(m, wit);
    if !ran.closed {
      var (r, input) := (Record(ran, wit), InputOf(wit));
      AcceptedExactly(r, input);
      if Update(r, input).Ok? {
        OkSteps(r, input);
      }
      ShapedRun(c, rs);
      assert Shaped(c, clean);
      ShapedSchedule(c, clean, t.stamp);
      FaultsExactly(r, input);
    }
  }

  lemma OkSteps(m: Machine, input: Input)
    requires Update(m, input).Ok?
    ensures Update(m, input).value.step == m.step + 1 && Update(m, input).value.error == m.error
  {
  }

  lemma FaultsExactly(m: Machine, input: Input)
    requires Timely(m, input.stamp)
    requires if input.path.Some? then input.action in PATH_ACTIONS && FindPath(m.paths, input.path.value) < |m.paths|
             else input.action !in PATH_ACTIONS
    ensures Update(m, input).Fault? <==> input.action !in VALID_ACTIONS
  {
  }

  /* ---------- a spend on any run ---------- */

  lemma AttemptStepsOrNot(m: Machine, input: Input)
    ensures Attempt(m, input) == m || Attempt(m, input).step > m.step
  {
  }

  lemma {:induction false} InputsStepOrNot(m: Machine, inputs: seq<Input>)
    ensures RunInputs(m, inputs) == m || RunInputs(m, inputs).step > m.step
    decreases |inputs|
  {
    hide Update, Attempt;
    if inputs != [] {
      AttemptStepsOrNot(m, inputs[0]);
      InputsStepOrNot(Attempt(m, inputs[0]), inputs[1..]);
    }
  }

  /** Due tasks commit something, or leave everything but the queue as it was. */
  lemma {:induction false} DueStepOrNot(m: Machine, due: seq<Task>)
    ensures var n := RunDue(m, due);
            n == m.(tasks := n.tasks) || n.step > m.step
    decreases |due|
  {
    hide RunInputs, TaskInputs;
    if due != [] {
      InputsStepOrNot(m, TaskInputs(m, due[0]));
      DueStepOrNot(Shift(RunTask(m, due[0])), due[1..]);
    }
  }

  /** A timely spend of an open path that its program approves makes that path the output, on every
      reachable open machine, unless a due task commits first. */
  lemma SpendBecomesOutput(
    c: Config, rs: seq<Request>, wit: Witness, prog: ProgramEntry)
    requires Run(c, rs).Returns? && !Run(c, rs).value.closed && Run(c, rs).value.output.None?
    requires FindsProgram(c, wit.tmpl.progId, prog)
    requires GrantsStatement(c, prog, wit.tmpl) && Approves(Run(c, rs).value, wit, prog.mthd)
    requires wit.tmpl.action == "spend" && wit.tmpl.path.Some?
    requires StateOf(Run(c, rs).value, wit.tmpl.path.value, PathState.Open)
    requires Run(c, rs).value.commitAt <= wit.tmpl.stamp < c.expiresAt
    ensures var m := Run(c, rs).value;
            var (ran, n) := (RunSchedule(m.(error := None), wit.tmpl.stamp), Eval(m, [wit]));
            ran.step == m.step ==>
              && n.Returns? && n.value.error.None? && n.value.closed && n.value.status.Spent?
              && n.value.output == wit.tmpl.path && n.value.closedAt == Some(wit.tmpl.stamp)
              && StateOf(n.value, wit.tmpl.path.value, PathState.Spent)
  {
    hide Update, RunSchedule, Approves, Loads, Record;
    var m := Run(c, rs).value;
    var clean := m.(error := None);
    var ran := RunSchedule(clean, wit.tmpl.stamp);
    ApprovedOutcome(c, rs, wit, prog);
    ScheduleStepOrNot(clean, wit.tmpl.stamp);
    if ran.step == m.step {
      var r := Record(ran, wit);
      SpendAccepted(m, r, InputOf(wit));
    }
  }

  lemma ScheduleStepOrNot(m: Machine, stopAt: int)
    ensures var n := RunSchedule(m, stopAt);
            n == m.(tasks := n.tasks) || n.step > m.step
  {
    DueStepOrNot(m, Due(m, m.tasks, stopAt));
  }

  lemma SpendAccepted(m: Machine, r: Machine, input: Input)
    requires r == m.(error := None, tasks := r.tasks, store := r.store)
    requires input.action == "spend" && input.path.Some? && StateOf(m, input.path.value, PathState.Open)
    requires Timely(m, input.stamp)
    ensures Update(r, input).Ok?
    ensures var n := Update(r, input).value;
            && n.error.None? && n.closed && n.status.Spent? && n.output == input.path
            && n.closedAt == Some(input.stamp) && StateOf(n, input.path.value, PathState.Spent)
  {
    hide Update;
    assert StateOf(r, input.path.value, PathState.Open) by {
      assert FindPath(r.paths, input.path.value) == FindPath(m.paths, input.path.value);
      PathFound(r, input.path.value);
    }
    AcceptedExactly(r, input);
    AcceptedEffect(r, input, PathState.Open);
  }

  /* ---------- every commit by a statement ---------- */

  lemma FoundProgram(c: Config, m: Machine, id: ProgId) returns (prog: ProgramEntry)
    requires Shaped(c, m) && FindProgram(m.programs, id) < |m.programs|
    ensures FindsProgram(c, id, prog) && m.programs[FindProgram(m.programs, id)] == CreateProgram(prog)
  {
    var i := FindProgram(m.programs, id);
    prog := c.programs[i];
    assert forall j | 0 <= j < i :: m.programs[j].progId != id;
  }

  /** The access checks, said on the proposal's programs. */
  lemma LoadsEntry(c: Config, m: Machine, wit: Witness, prog: ProgramEntry)
    requires Shaped(c, m) && FindsProgram(c, wit.tmpl.progId, prog)
    requires wit.tmpl.path.Some? ==> wit.tmpl.path.value in c.pathnames
    ensures Loads(m, wit)
       <==> && GrantsStatement(c, prog, wit.tmpl)
            && !prog.mthd.Unknown? && (prog.mthd.Claim? ==> prog.mthd.lock.Some?)
  {
    hide Regex;
    ProgramFound(c, m, wit.tmpl.progId, prog);
  }

  lemma DecidesExactly(m: Machine, wit: Witness, mthd: Method)
    requires Loads(m, wit) && m.programs[FindProgram(m.programs, wit.tmpl.progId)].mthd == mthd
    ensures Decide(m, wit).1.Yes? <==> Approves(m, wit, mthd)
  {
    hide ExecClaim, Claims;
    match mthd
    case Endorse(threshold, members) =>
      var name := VoteLabel(wit.tmpl.path, wit.tmpl.action);
      var ballots := m.store[FindStore(m.store, wit.tmpl.progId)].ballots;
      assert VotesFor(m, wit.tmpl) == Votes(ballots, name);
      ApprovedExactly(threshold, members, ballots, name, wit.sigs);
    case Claim(lock, members) => ClaimedExactly(lock.value, members, wit);
    case Unknown(_) =>
  }

  lemma ProgramCommits(m: Machine, wit: Witness)
    ensures (!RunProgram(m, wit).1.Fault? && RunProgram(m, wit).0.step == m.step + 1)
            <==> Loads(m, wit) && Decide(m, wit).1.Yes? && Update(Record(m, wit), InputOf(wit)).Ok?
  {
    hide Decide, Loads;
  }

  lemma LoadsShape(m: Machine, wit: Witness)
    requires Loads(m, wit)
    ensures FindProgram(m.programs, wit.tmpl.progId) < |m.programs|
    ensures Record(m, wit) == m.(store := Record(m, wit).store)
    ensures wit.tmpl.path.Some? ==> wit.tmpl.action != "close"
  {
    hide Decide;
  }

  lemma AllowedNames(c: Config, m: Machine, t: Template)
    requires Shaped(c, m) && Allowed(m, t) && t.action != "close"
    ensures t.path.Some? && t.path.value in c.pathnames
  {
    var s :| StateOf(m, t.path.value, s);
  }

  lemma OneProgram(c: Config, id: ProgId, p: ProgramEntry, q: ProgramEntry)
    requires FindsProgram(c, id, p) && FindsProgram(c, id, q)
    ensures p == q
  {
    var i :| 0 <= i < |c.programs| && c.programs[i] == p && ProgId(p.mthd) == id
          && forall j | 0 <= j < i :: ProgId(c.programs[j].mthd) != id;
    var k :| 0 <= k < |c.programs| && c.programs[k] == q && ProgId(q.mthd) == id
          && forall j | 0 <= j < k :: ProgId(c.programs[j].mthd) != id;
    assert i >= k && k >= i;
  }

  lemma AcceptedAllowed(m: Machine, r: Machine, wit: Witness)
    requires r == m.(store := r.store)
    ensures Update(r, InputOf(wit)).Ok? <==> Timely(m, wit.tmpl.stamp) && Allowed(m, wit.tmpl)
  {
    hide Update, Target;
    AcceptedExactly(r, InputOf(wit));
  }

  lemma CommitsOpen(c: Config, m: Machine, wit: Witness)
    requires Shaped(c, m)
    ensures (!RunProgram(m, wit).1.Fault? && RunProgram(m, wit).0.step == m.step + 1)
            <==> Timely(m, wit.tmpl.stamp) && Allowed(m, wit.tmpl)
                 && exists prog :: FindsProgram(c, wit.tmpl.progId, prog) && GrantsStatement(c, prog, wit.tmpl)
                                && Approves(m, wit, prog.mthd)
  {
    hide Update, Record, RunProgram, Target, GrantsStatement, FindsProgram, Decide, Loads, StateOf, Allowed, Shaped;
    var t := wit.tmpl;
    ProgramCommits(m, wit);
    if prog :| FindsProgram(c, t.progId, prog) && GrantsStatement(c, prog, t) && Approves(m, wit, prog.mthd) {
      GrantedNames(c, prog, t);
      LoadsEntry(c, m, wit, prog);
      LoadsShape(m, wit);
      var found := FoundProgram(c, m, t.progId);
      OneProgram(c, t.progId, prog, found);
      DecidesExactly(m, wit, prog.mthd);
      AcceptedAllowed(m, Record(m, wit), wit);
    }
    if Loads(m, wit) && Decide(m, wit).1.Yes? && Update(Record(m, wit), InputOf(wit)).Ok? {
      LoadsShape(m, wit);
      AcceptedAllowed(m, Record(m, wit), wit);
      if t.action != "close" {
        AllowedNames(c, m, t);
      }
      var prog := FoundProgram(c, m, t.progId);
      LoadsEntry(c, m, wit, prog);
      DecidesExactly(m, wit, prog.mthd);
    }
  }

  lemma GrantedNames(c: Config, prog: ProgramEntry, t: Template)
    requires GrantsStatement(c, prog, t)
    ensures t.path.Some? ==> t.path.value in c.pathnames
  {
  }

  /** When a statement commits, exactly. On every reachable machine without an output: if and
      only if, after the due tasks, the machine is open and the stamp in time, the program found
      under its id grants and approves it, and the machine's state allows its action. */
  lemma CommitsExactly(c: Config, rs: seq<Request>, wit: Witness)
    requires Run(c, rs).Returns? && Run(c, rs).value.output.None?
    ensures var m := Run(c, rs).value;
            var ran := RunSchedule(m.(error := None), wit.tmpl.stamp);
            var n := Eval(m, [wit]);
            (n.Returns? && n.value.step == ran.step + 1)
            <==> !ran.closed && Timely(ran, wit.tmpl.stamp) && Allowed(ran, wit.tmpl)
                 && exists prog :: FindsProgram(c, wit.tmpl.progId, prog) && GrantsStatement(c, prog, wit.tmpl)
                                && Approves(ran, wit, prog.mthd)
  {
    hide Update, RunSchedule, RunProgram, Approves, GrantsStatement, FindsProgram, Allowed;
    var m := Run(c, rs).value;
    var clean := m.(error := None);
    var (ran, t) := (RunSchedule(clean, wit.tmpl.stamp), wit.tmpl);
    ShapedRun(c, rs);
    assert Shaped(c, clean);
    ShapedSchedule(c, clean, t.stamp);
    EvalOne(m, wit);
    if !ran.closed {
      CommitsOpen(c, ran, wit);
    }
  }
}
