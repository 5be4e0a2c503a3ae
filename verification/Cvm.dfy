/** The contract virtual machine: its data and the meaning of each of its steps.
    `src/cvm/lib` of the repository, on values; module Vm holds the mutable form. */
module Cvm {
  import opened Basics
  import opened Labels
  import opened Sorting

  /* ---------- identifiers: digests as injective constructors ---------- */

  datatype Digest = Sha256(preimage: string)

  datatype Method =
    | Endorse(threshold: int, members: seq<string>)
    | Claim(lock: Option<Digest>, members: seq<string>)   // None: the parameter is not a hash
    | Unknown(name: string)

  /** A program's id hashes its method and parameters, and neither its actions nor its paths. */
  datatype ProgId = ProgId(mthd: Method)

  /** The fields that a statement's id hashes. */
  datatype Template = Template(
    action: string, args: seq<string>, content: string, methodName: string,
    path: Option<string>, progId: ProgId, stamp: int, vmid: string)

  datatype Wid = MachineId(vmid: string) | StatementId(tmpl: Template)

  datatype Head =
    | Genesis(vmid: string)
    | Link(wid: Wid, prev: Head, output: string, step: nat, stamp: int)

  /** How many commits a head records. */
  function Length(h: Head): nat {
    match h
    case Genesis(_) => 0
    case Link(_, prev, _, _, _) => 1 + Length(prev)
  }

  /* ---------- data ---------- */

  datatype PathState = Open | Locked | Disputed | Spent

  datatype Status = Init | Open | Disputed | Closed | Spent

  datatype PathEntry = PathEntry(name: string, state: PathState)

  datatype ProgramEntry = ProgramEntry(actions: string, paths: string, mthd: Method)

  datatype ProgramData = ProgramData(progId: ProgId, actions: string, paths: Option<string>, mthd: Method)

  datatype Ballot = Ballot(name: string, keys: seq<string>)

  datatype StoreEntry = StoreEntry(progId: ProgId, ballots: seq<Ballot>)

  datatype Task = Task(timer: int, actions: string, paths: string)

  datatype Proof = Proof(pub: string, sig: string)

  datatype Witness = Witness(tmpl: Template, sigs: seq<Proof>, wid: Wid)

  datatype Input = Input(action: string, path: Option<string>, stamp: int, wid: Wid)

  datatype VmError =
    | BeforeCommit(stamp: int, commitAt: int)
    | Expired(stamp: int, expiresAt: int)
    | ActionNotFound
    | AlreadyDisputed
    | NotDisputed
    | AlreadyLocked
    | InDispute
    | NotLocked
    | PathLocked
    | NotAMember
    | RecordExists(label_: string, pubkey: string)
    | InvalidPreimage
    | DigestMismatch
    | InvalidProof

  datatype Config = Config(
    activeAt: int, engine: string, expiresAt: int, pathnames: seq<string>,
    programs: seq<ProgramEntry>, schedule: seq<Task>, vmid: string)

  /** A snapshot of the machine (`MachineData` with its state revived). */
  datatype Machine = Machine(
    activeAt: int,
    closed: bool,
    closedAt: Option<int>,
    commitAt: int,
    engine: string,
    error: Option<VmError>,
    expiresAt: int,
    head: Head,
    output: Option<string>,
    pathnames: seq<string>,
    programs: seq<ProgramData>,
    paths: seq<PathEntry>,
    status: Status,
    store: seq<StoreEntry>,
    step: nat,
    tasks: seq<Task>,
    updatedAt: int,
    vmid: string)

  const PATH_ACTIONS: seq<string> := ["lock", "release", "dispute", "resolve", "spend"]
  const VALID_ACTIONS: seq<string> := ["close", "lock", "release", "dispute", "resolve", "spend"]

  /* ---------- paths (path.ts) ---------- */

  /** `findIndex` on the path list; the length of the list stands for -1. */
  function FindPath(paths: seq<PathEntry>, name: string): (i: nat)
    ensures i <= |paths|
    ensures i < |paths| ==> paths[i].name == name
    ensures forall j | 0 <= j < i :: paths[j].name != name
  {
    IndexOf((p: PathEntry) => p.name, paths, name)
  }

  function StatusAfter(status: Status, state: PathState): Status {
    match state
    case Spent => Status.Spent
    case Disputed => Status.Disputed
    case _ => status
  }

  datatype Terms = Terms(canDispute: bool, canLock: bool, canResolve: bool)

  /** One program's contribution to a path's terms and initial state. */
  function AddTerms(pathname: string, prog: ProgramEntry, terms: Terms, pstate: PathState): (Terms, PathState) {
    if !Regex(pathname, prog.paths) then
      (terms, pstate)
    else
      (Terms(terms.canDispute || Regex("dispute", prog.actions),
             terms.canLock || Regex("lock", prog.actions),
             terms.canResolve || Regex("resolve", prog.actions)),
       if Regex("unlock", prog.actions) then PathState.Locked else pstate)
  }

  function AllTerms(pathname: string, programs: seq<ProgramEntry>): (Terms, PathState) {
    if programs == [] then
      (Terms(false, false, false), PathState.Open)
    else
      var (terms, pstate) := AllTerms(pathname, programs[..|programs| - 1]);
      AddTerms(pathname, programs[|programs| - 1], terms, pstate)
  }

  function InitPathState(pathname: string, programs: seq<ProgramEntry>): Call<PathState> {
    var (terms, pstate) := AllTerms(pathname, programs);
    if terms.canDispute && !terms.canResolve then Throws else Returns(pstate)
  }

  function InitPaths(pathnames: seq<string>, programs: seq<ProgramEntry>): Call<seq<PathEntry>> {
    if pathnames == [] then
      Returns([])
    else
      match (InitPaths(pathnames[..|pathnames| - 1], programs), InitPathState(pathnames[|pathnames| - 1], programs))
      case (Returns(rest), Returns(state)) => Returns(rest + [PathEntry(pathnames[|pathnames| - 1], state)])
      case _ => Throws
  }

  /* ---------- actions (action.ts) ---------- */

  function RunPathAction(action: string, pstate: PathState, status: Status): Outcome<PathState, VmError> {
    match action
    case "spend" =>
      if pstate.Locked? then Err(PathLocked)
      else if pstate.Disputed? then Err(InDispute)
      else Ok(PathState.Spent)
    case "dispute" =>
      if pstate.Disputed? then Err(AlreadyDisputed) else Ok(PathState.Disputed)
    case "lock" =>
      if pstate.Locked? then Err(AlreadyLocked)
      else if pstate.Disputed? then Err(InDispute)
      else Ok(PathState.Locked)
    case "unlock" =>
      if !pstate.Locked? then Err(NotLocked) else Ok(PathState.Open)
    case "resolve" =>
      if !status.Disputed? then Err(NotDisputed) else Ok(PathState.Spent)
    case _ => Err(ActionNotFound)
  }

  /* ---------- the commit step (state.ts) ---------- */

  function OutputText(output: Option<string>): string {
    if output.Some? then output.value else "null"
  }

  /** The bookkeeping that follows an accepted action. */
  function Commit(m: Machine, input: Input): Machine {
    var step := m.step + 1;
    var head := Link(input.wid, m.head, OutputText(m.output), step, input.stamp);
    var next := m.(step := step, commitAt := input.stamp, head := head);
    if m.status.Closed? || m.status.Spent? then
      next.(closed := true, closedAt := Some(input.stamp), output := input.path)
    else
      next
  }

  function Update(m: Machine, input: Input): Outcome<Machine, VmError> {
    if input.stamp < m.commitAt then
      Err(BeforeCommit(input.stamp, m.commitAt))
    else if input.stamp >= m.expiresAt then
      Err(Expired(input.stamp, m.expiresAt))
    else if input.action == "close" then
      Ok(Commit(m.(status := Status.Closed), input))
    else if input.action in PATH_ACTIONS then
      if input.path.None? then
        Fault
      else
        var i := FindPath(m.paths, input.path.value);
        if i == |m.paths| then
          Fault
        else
          match RunPathAction(input.action, m.paths[i].state, m.status)
          case Ok(state) =>
            var paths := m.paths[i := PathEntry(input.path.value, state)];
            Ok(Commit(m.(paths := paths, status := StatusAfter(m.status, state)), input))
          case Err(e) => Err(e)
          case Fault => Fault
    else
      Fault
  }

  /** The machine after an input, accepted or not. */
  function Attempt(m: Machine, input: Input): Machine {
    match Update(m, input)
    case Ok(next) => next
    case _ => m
  }

  /** How the commit step ended, without the machine it left. */
  function Ending(result: Outcome<Machine, VmError>): Outcome<(), VmError> {
    match result
    case Ok(_) => Ok(())
    case Err(e) => Err(e)
    case Fault => Fault
  }

  /** An accepted input that leaves the machine with an output. */
  predicate Stops(m: Machine, input: Input) {
    Update(m, input).Ok? && Attempt(m, input).output.Some?
  }

  /* ---------- the schedule (schedule.ts) ---------- */

  predicate ByTimer(a: Task, b: Task) { a.timer <= b.timer }

  function PathNames(paths: seq<PathEntry>): seq<string> {
    if paths == [] then [] else [paths[0].name] + PathNames(paths[1..])
  }

  function ActionInputs(action: string, plist: seq<string>, stamp: int, wid: Wid): seq<Input> {
    if plist == [] then []
    else [Input(action, Some(plist[0]), stamp, wid)] + ActionInputs(action, plist[1..], stamp, wid)
  }

  function Inputs(alist: seq<string>, plist: seq<string>, stamp: int, wid: Wid): seq<Input> {
    if alist == [] then
      []
    else
      (if alist[0] in PATH_ACTIONS then ActionInputs(alist[0], plist, stamp, wid)
       else [Input(alist[0], None, stamp, wid)])
      + Inputs(alist[1..], plist, stamp, wid)
  }

  function DueAt(m: Machine, task: Task): int {
    m.activeAt + task.timer
  }

  function TaskInputs(m: Machine, task: Task): seq<Input> {
    Inputs(AccessList(task.actions, VALID_ACTIONS), AccessList(task.paths, PathNames(m.paths)),
           DueAt(m, task), MachineId(m.vmid))
  }

  /** Each input is tried in turn; failures are swallowed, an output ends the task. */
  function RunInputs(m: Machine, inputs: seq<Input>): Machine
    decreases |inputs|
  {
    if inputs == [] then
      m
    else
      var next := Attempt(m, inputs[0]);
      if Stops(m, inputs[0]) then next else RunInputs(next, inputs[1..])
  }

  function RunTask(m: Machine, task: Task): Machine {
    RunInputs(m, TaskInputs(m, task))
  }

  /** `data.tasks.shift()`. */
  function Shift(m: Machine): Machine {
    m.(tasks := if m.tasks == [] then [] else m.tasks[1..])
  }

  predicate IsDue(m: Machine, task: Task, stopAt: int) {
    m.updatedAt <= DueAt(m, task) <= stopAt
  }

  function Due(m: Machine, tasks: seq<Task>, stopAt: int): seq<Task> {
    if tasks == [] then []
    else (if IsDue(m, tasks[0], stopAt) then [tasks[0]] else []) + Due(m, tasks[1..], stopAt)
  }

  function RunDue(m: Machine, due: seq<Task>): Machine
    decreases |due|
  {
    if due == [] then
      m
    else
      var next := Shift(RunTask(m, due[0]));
      if next.output.Some? then next else RunDue(next, due[1..])
  }

  function RunSchedule(m: Machine, stopAt: int): Machine {
    RunDue(m, Due(m, m.tasks, stopAt))
  }

  /* ---------- programs (program.ts, methods/) ---------- */

  function MethodName(m: Method): string {
    match m
    case Endorse(_, _) => "endorse"
    case Claim(_, _) => "claim"
    case Unknown(name) => name
  }

  /** `check_params`: what a proposal's programs must pass. */
  predicate CheckParams(m: Method) {
    match m
    case Endorse(threshold, members) => 0 < threshold <= |members|
    case Claim(lock, _) => lock.Some?
    case Unknown(_) => false
  }

  function CreateProgram(e: ProgramEntry): ProgramData {
    ProgramData(ProgId(e.mthd), e.actions, Some(e.paths), e.mthd)
  }

  function FindProgram(programs: seq<ProgramData>, id: ProgId): (i: nat)
    ensures i <= |programs|
    ensures i < |programs| ==> programs[i].progId == id
  {
    IndexOf((p: ProgramData) => p.progId, programs, id)
  }

  function FindStore(store: seq<StoreEntry>, id: ProgId): (i: nat)
    ensures i <= |store|
    ensures i < |store| ==> store[i].progId == id
  {
    IndexOf((e: StoreEntry) => e.progId, store, id)
  }

  function FindBallot(ballots: seq<Ballot>, name: string): (i: nat)
    ensures i <= |ballots|
    ensures i < |ballots| ==> ballots[i].name == name
  {
    IndexOf((b: Ballot) => b.name, ballots, name)
  }

  /** The label votes are recorded under. */
  function VoteLabel(path: Option<string>, action: string): string {
    OutputText(path) + "/" + action
  }

  /** `record_entry`: the new ballots, or an error when the key has voted already. */
  function RecordEntry(ballots: seq<Ballot>, name: string, pub: string): Outcome<seq<Ballot>, VmError> {
    var i := FindBallot(ballots, name);
    if i == |ballots| then Ok(ballots + [Ballot(name, [pub])])
    else if pub in ballots[i].keys then Err(RecordExists(name, pub))
    else Ok(ballots[i := Ballot(name, ballots[i].keys + [pub])])
  }

  function Votes(ballots: seq<Ballot>, name: string): seq<string> {
    var i := FindBallot(ballots, name);
    if i == |ballots| then [] else ballots[i].keys
  }

  datatype Verdict = Yes | No | Bad(error: VmError)

  /** The endorse method. Votes recorded before a bad signature stay recorded. */
  function ExecEndorse(threshold: int, members: seq<string>, ballots: seq<Ballot>, name: string, sigs: seq<Proof>)
    : (seq<Ballot>, Verdict)
    decreases |sigs|
  {
    if sigs == [] then
      (ballots, No)
    else if sigs[0].pub !in members then
      (ballots, Bad(NotAMember))
    else
      match RecordEntry(ballots, name, sigs[0].pub)
      case Ok(next) =>
        if |Votes(next, name)| >= threshold then (next, Yes)
        else ExecEndorse(threshold, members, next, name, sigs[1..])
      case Err(e) => (ballots, Bad(e))
      case Fault => (ballots, No)
  }

  predicate IsHash(s: string) {
    |s| == 64 && forall c | c in s :: '0' <= c <= '9' || 'a' <= c <= 'f' || 'A' <= c <= 'F'
  }

  function ExecClaim(lock: Digest, members: seq<string>, args: seq<string>, sigs: seq<Proof>): Verdict {
    if args == [] || !IsHash(args[0]) then Bad(InvalidPreimage)
    else if Sha256(args[0]) != lock then Bad(DigestMismatch)
    else if sigs == [] then Bad(InvalidProof)
    else if sigs[0].pub !in members then Bad(NotAMember)
    else Yes
  }

  /** The access checks of `load_program`; every failure is a plain throw. */
  predicate Grants(prog: ProgramData, action: string, path: Option<string>) {
    && Regex(action, prog.actions)
    && if path.Some? then
         && path.value != "null"
         && action in PATH_ACTIONS
         && prog.paths.Some?
         && Regex(path.value, prog.paths.value)
       else
         action !in PATH_ACTIONS
  }

  predicate Loads(m: Machine, wit: Witness) {
    var i := FindProgram(m.programs, wit.tmpl.progId);
    && i < |m.programs|
    && FindStore(m.store, wit.tmpl.progId) < |m.store|
    && Grants(m.programs[i], wit.tmpl.action, wit.tmpl.path)
    && match m.programs[i].mthd
       case Endorse(_, _) => true
       case Claim(lock, _) => lock.Some?
       case Unknown(_) => false
  }

  function InputOf(wit: Witness): Input {
    Input(wit.tmpl.action, wit.tmpl.path, wit.tmpl.stamp, wit.wid)
  }

  /** What the statement's program decides, with the ballots it leaves behind. */
  function Decide(m: Machine, wit: Witness): (seq<Ballot>, Verdict)
    requires Loads(m, wit)
  {
    var prog := m.programs[FindProgram(m.programs, wit.tmpl.progId)];
    var ballots := m.store[FindStore(m.store, wit.tmpl.progId)].ballots;
    match prog.mthd
    case Endorse(threshold, members) =>
      ExecEndorse(threshold, members, ballots, VoteLabel(wit.tmpl.path, wit.tmpl.action), wit.sigs)
    case Claim(lock, members) => (ballots, ExecClaim(lock.value, members, wit.tmpl.args, wit.sigs))
    case Unknown(_) => (ballots, No)
  }

  /** The machine once the program's ballots are written back. */
  function Record(m: Machine, wit: Witness): Machine
    requires Loads(m, wit)
  {
    var i := FindStore(m.store, wit.tmpl.progId);
    m.(store := m.store[i := StoreEntry(wit.tmpl.progId, Decide(m, wit).0)])
  }

  /** `run_program`: the machine left behind, and how the call ended. */
  function RunProgram(m: Machine, wit: Witness): (Machine, Outcome<(), VmError>) {
    if !Loads(m, wit) then
      (m, Fault)
    else
      var recorded := Record(m, wit);
      match Decide(m, wit).1
      case Bad(e) => (recorded, Err(e))
      case No => (recorded, Ok(()))
      case Yes =>
        (Attempt(recorded, InputOf(wit)), Ending(Update(recorded, InputOf(wit))))
  }

  /* ---------- entry points (main.ts) ---------- */

  predicate ByStamp(a: Witness, b: Witness) { a.tmpl.stamp <= b.tmpl.stamp }

  /** One turn of the loop in `eval_witness`. */
  function EvalStep(m: Machine, wit: Witness): Call<Machine> {
    var ran := RunSchedule(m, wit.tmpl.stamp);
    if ran.closed then
      Returns(ran)
    else
      var (next, ended) := RunProgram(ran, wit);
      match ended
      case Ok(_) => Returns(next)
      case Err(e) => Returns(next.(error := Some(e)))
      case Fault => Throws
  }

  /** The loop: a close, an error or a throw ends it. */
  function EvalStack(m: Machine, stack: seq<Witness>): Call<Machine>
    decreases |stack|
  {
    if stack == [] then
      Returns(m)
    else
      var next := EvalStep(m, stack[0]);
      if next.Throws? || next.value.closed || next.value.error.Some? then next
      else EvalStack(next.value, stack[1..])
  }

  function Eval(m: Machine, stack: seq<Witness>): Call<Machine> {
    if m.output.Some? then Returns(m)
    else EvalStack(m.(error := None), Sort(ByStamp, stack))
  }

  function EvalSchedule(m: Machine, stopAt: int): Machine {
    if m.output.Some? then m else RunSchedule(m, stopAt)
  }

  function Map<A, B>(f: A -> B, xs: seq<A>): (ys: seq<B>)
    ensures |ys| == |xs|
    ensures forall i | 0 <= i < |xs| :: ys[i] == f(xs[i])
  {
    seq(|xs|, i requires 0 <= i < |xs| => f(xs[i]))
  }

  function InitVm(c: Config): Call<Machine> {
    match InitPaths(c.pathnames, c.programs)
    case Throws => Throws
    case Returns(paths) =>
      var programs := Map(CreateProgram, c.programs);
      Returns(Machine(
        activeAt := c.activeAt, closed := false, closedAt := None, commitAt := c.activeAt,
        engine := c.engine, error := None, expiresAt := c.expiresAt, head := Genesis(c.vmid),
        output := None, pathnames := c.pathnames, programs := programs, paths := paths,
        status := Status.Init, store := Map((p: ProgramData) => StoreEntry(p.progId, []), programs),
        step := 0, tasks := Sort(ByTimer, c.schedule), updatedAt := c.activeAt, vmid := c.vmid))
  }

  /* ---------- what the steps leave alone ---------- */

  /** What an attempt cannot change, and the only way it produces an output. */
  lemma AttemptFrame(m: Machine, input: Input)
    ensures var n := Attempt(m, input);
            && n.vmid == m.vmid && n.activeAt == m.activeAt && n.expiresAt == m.expiresAt
            && n.updatedAt == m.updatedAt && n.programs == m.programs && n.pathnames == m.pathnames
            && n.store == m.store && n.tasks == m.tasks && n.engine == m.engine && n.error == m.error
            && (m.closed ==> n.closed)
            && (m.output.None? && n.output.Some? ==> n.closed)
  {
  }

  lemma {:induction false} InputsFrame(m: Machine, inputs: seq<Input>)
    ensures var n := RunInputs(m, inputs);
            && n.vmid == m.vmid && n.activeAt == m.activeAt && n.updatedAt == m.updatedAt
            && n.tasks == m.tasks && n.error == m.error
    decreases |inputs|
  {
    if inputs != [] {
      AttemptFrame(m, inputs[0]);
      InputsFrame(Attempt(m, inputs[0]), inputs[1..]);
    }
  }

  lemma {:induction false} DueKeepsError(m: Machine, due: seq<Task>)
    ensures RunDue(m, due).error == m.error
    decreases |due|
  {
    if due != [] {
      InputsFrame(m, TaskInputs(m, due[0]));
      DueKeepsError(Shift(RunTask(m, due[0])), due[1..]);
    }
  }

  lemma ScheduleKeepsError(m: Machine, stopAt: int)
    ensures RunSchedule(m, stopAt).error == m.error
  {
    DueKeepsError(m, Due(m, m.tasks, stopAt));
  }

  lemma ProgramFrame(m: Machine, wit: Witness)
    ensures var n := RunProgram(m, wit).0;
            && n.vmid == m.vmid && n.activeAt == m.activeAt && n.expiresAt == m.expiresAt
            && n.updatedAt == m.updatedAt && n.programs == m.programs && n.pathnames == m.pathnames
            && n.tasks == m.tasks && n.engine == m.engine && n.error == m.error
            && (m.closed ==> n.closed)
            && (m.output.None? && n.output.Some? ==> n.closed)
  {
    if Loads(m, wit) {
      AttemptFrame(Record(m, wit), InputOf(wit));
    }
  }

  /** A program run that does not succeed has touched the vote store and nothing else. */
  lemma FailedProgram(m: Machine, wit: Witness)
    ensures !RunProgram(m, wit).1.Ok? ==> RunProgram(m, wit).0 == m.(store := RunProgram(m, wit).0.store)
  {
  }

  /** A call with a single statement is one turn of the loop. */
  lemma EvalOne(m: Machine, wit: Witness)
    requires m.output.None?
    ensures Eval(m, [wit]) == EvalStep(m.(error := None), wit)
  {
    var clean := m.(error := None);
    var stack := [wit];
    assert stack[1..] == [];
    assert Sort(ByStamp, stack) == stack;
    var next := EvalStep(clean, wit);
    assert EvalStack(clean, stack) == if next.Returns? && !next.value.closed && next.value.error.None?
                                      then EvalStack(next.value, []) else next;
  }
}
