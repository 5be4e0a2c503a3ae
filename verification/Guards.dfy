/** What the checks in front of the machine guarantee: a verified statement does not make
    it throw, and a disputed contract can always be resolved. */
module Guards {
  import opened Basics
  import opened Labels
  import opened Sorting
  import opened Cvm
  import opened Traces
  import opened Schedules
  import opened Outcomes
  import opened Ballots

  /* ---------- the machine's shape ---------- */

  /** What no run changes about a machine set up from `c`. */
  predicate Shaped(c: Config, m: Machine) {
    && m.programs == Map(CreateProgram, c.programs)
    && m.pathnames == c.pathnames && |m.paths| == |c.pathnames|
    && (forall i | 0 <= i < |m.paths| :: m.paths[i].name == c.pathnames[i])
    && m.activeAt == c.activeAt && m.expiresAt == c.expiresAt && m.vmid == c.vmid && m.engine == c.engine
    && |m.store| == |m.programs|
    && (forall i | 0 <= i < |m.store| :: m.store[i].progId == m.programs[i].progId)
  }

  lemma ShapedAttempt(c: Config, m: Machine, input: Input)
    requires Shaped(c, m)
    ensures Shaped(c, Attempt(m, input))
  {
    AttemptFrame(m, input);
    if Update(m, input).Ok? {
      Accepted(m, input);
    }
  }

  lemma ShapedEvent(c: Config, m: Machine, e: Event)
    requires Shaped(c, m) && Legal(m, e)
    ensures Shaped(c, Apply(m, e))
  {
    match e
    case SetError(_) =>
    case DropTask =>
    case Scheduled(input) => ShapedAttempt(c, m, input);
    case Stated(wit) =>
      var n := Record(m, wit);
      assert Shaped(c, n);
      ShapedAttempt(c, n, InputOf(wit));
  }

  lemma ShapedRun(c: Config, rs: seq<Request>)
    requires Run(c, rs).Returns?
    ensures Shaped(c, Run(c, rs).value)
  {
    InitPathsShape(c.pathnames, c.programs);
    forall m, e | Shaped(c, m) && Legal(m, e) ensures Shaped(c, Apply(m, e)) {
      ShapedEvent(c, m, e);
    }
    RunInvariant(m => Shaped(c, m), _ => true, c, rs);
  }

  lemma ShapedSchedule(c: Config, m: Machine, stopAt: int)
    requires Shaped(c, m) && m.output.None?
    ensures Shaped(c, RunSchedule(m, stopAt))
  {
    var es := ScheduleTrace(m, stopAt);
    forall n, e | Shaped(c, n) && Legal(n, e) ensures Shaped(c, Apply(n, e)) {
      ShapedEvent(c, n, e);
    }
    TraceInvariant(n => Shaped(c, n), _ => true, m, es, RunSchedule(m, stopAt));
  }

  lemma {:induction false} InputsCommitAt(m: Machine, inputs: seq<Input>, stamp: int)
    requires forall i | i in inputs :: i.stamp == stamp
    ensures RunInputs(m, inputs).commitAt == m.commitAt || RunInputs(m, inputs).commitAt == stamp
    decreases |inputs|
  {
    if inputs != [] {
      AttemptClock(m, inputs[0]);
      InputsCommitAt(Attempt(m, inputs[0]), inputs[1..], stamp);
    }
  }

  lemma {:induction false} DueCommitAt(m: Machine, due: seq<Task>, stopAt: int)
    requires m.commitAt <= stopAt && forall t | t in due :: DueAt(m, t) <= stopAt
    ensures RunDue(m, due).commitAt <= stopAt && RunDue(m, due).store == m.store
    decreases |due|
  {
    if due != [] {
      var task := due[0];
      InputsShape(AccessList(task.actions, VALID_ACTIONS), AccessList(task.paths, PathNames(m.paths)),
                  DueAt(m, task), MachineId(m.vmid));
      InputsCommitAt(m, TaskInputs(m, task), DueAt(m, task));
      InputsKeepStore(m, TaskInputs(m, task));
      InputsFrame(m, TaskInputs(m, task));
      var next := Shift(RunTask(m, task));
      assert task in due && forall t | t in due[1..] :: t in due && DueAt(next, t) == DueAt(m, t);
      DueCommitAt(next, due[1..], stopAt);
    }
  }

  lemma {:induction false} InputsKeepStore(m: Machine, inputs: seq<Input>)
    ensures RunInputs(m, inputs).store == m.store
    decreases |inputs|
  {
    if inputs != [] {
      AttemptHead(m, inputs[0]);
      InputsKeepStore(Attempt(m, inputs[0]), inputs[1..]);
    }
  }

  /** The schedule never moves the commit clock past the stop time, and leaves votes alone. */
  lemma ScheduleCommitAt(m: Machine, stopAt: int)
    requires m.commitAt <= stopAt
    ensures RunSchedule(m, stopAt).commitAt <= stopAt && RunSchedule(m, stopAt).store == m.store
  {
    DueLength(m, m.tasks, stopAt);
    DueCommitAt(m, Due(m, m.tasks, stopAt), stopAt);
  }

  /* ---------- verified statements ---------- */

  function MembersOf(m: Method): seq<string> {
    match m
    case Endorse(_, members) => members
    case Claim(_, members) => members
    case Unknown(_) => []
  }

  /** `verify_witness_data`, with the signature scheme as a parameter. */
  predicate Verified(m: Machine, wit: Witness, validSig: (Proof, Wid) -> bool) {
    var i := FindProgram(m.programs, wit.tmpl.progId);
    && i < |m.programs|
    && wit.wid == StatementId(wit.tmpl)
    && wit.tmpl.methodName == MethodName(m.programs[i].mthd)
    && Regex(wit.tmpl.action, m.programs[i].actions)
    && wit.tmpl.stamp >= m.activeAt
    && wit.tmpl.stamp >= m.commitAt
    && wit.tmpl.stamp < m.expiresAt
    && m.output.None?
    && (wit.tmpl.path.Some? ==>
          && m.programs[i].paths.Some?
          && Regex(wit.tmpl.path.value, m.programs[i].paths.value)
          && wit.tmpl.path.value in m.pathnames)
    && (forall s | s in wit.sigs :: s.pub in MembersOf(m.programs[i].mthd) && validSig(s, wit.wid))
  }

  /** A valid action, and a path, not named "null", exactly when the action needs one. */
  predicate WellShaped(t: Template) {
    && t.action in VALID_ACTIONS
    && (t.path.Some? <==> t.action in PATH_ACTIONS)
    && (t.path.Some? ==> t.path.value != "null")
  }

  /** What the machine throws on although the verifier lets it through. */
  predicate Misshapen(m: Machine, wit: Witness) {
    if wit.tmpl.path.Some? then
      wit.tmpl.path.value == "null" || wit.tmpl.action !in PATH_ACTIONS
    else
      || wit.tmpl.action in PATH_ACTIONS
      || (wit.tmpl.action != "close" && Loads(m, wit) && Decide(m, wit).1.Yes?)
  }

  lemma UpdateFaults(m: Machine, input: Input)
    requires m.commitAt <= input.stamp < m.expiresAt
    requires input.path.Some? ==> FindPath(m.paths, input.path.value) < |m.paths|
    ensures Update(m, input).Fault? <==> input.action != "close" && (input.action !in PATH_ACTIONS || input.path.None?)
  {
    hide Commit;
  }

  /** For a verified statement the access checks come down to whether it has a path that its
      action can use. */
  lemma LoadsExactly(c: Config, m: Machine, wit: Witness, validSig: (Proof, Wid) -> bool)
    requires Shaped(c, m) && Verified(m, wit, validSig)
    requires forall p | p in c.programs :: CheckParams(p.mthd)
    ensures Loads(m, wit) <==>
              if wit.tmpl.path.Some? then wit.tmpl.path.value != "null" && wit.tmpl.action in PATH_ACTIONS
              else wit.tmpl.action !in PATH_ACTIONS
  {
    hide Regex;
    var i := FindProgram(m.programs, wit.tmpl.progId);
    assert m.programs[i] == CreateProgram(c.programs[i]) && c.programs[i] in c.programs;
  }

  /** On a machine whose programs passed the parameter check, a verified statement's program
      throws exactly when the statement is misshapen. */
  lemma ProgramThrows(c: Config, m: Machine, wit: Witness, validSig: (Proof, Wid) -> bool)
    requires Shaped(c, m) && Verified(m, wit, validSig)
    requires forall p | p in c.programs :: CheckParams(p.mthd)
    ensures RunProgram(m, wit).1.Fault? <==> Misshapen(m, wit)
  {
    hide Update, Loads, Decide, Grants;
    LoadsExactly(c, m, wit, validSig);
    if Loads(m, wit) {
      UpdateFaults(Record(m, wit), InputOf(wit));
    }
  }

  /** Verified statements and throws, exactly. On every reachable machine whose programs passed
      `check_params`, evaluating a verified statement returns, with a commit, recorded votes or
      an error, unless it is misshapen and the schedule has not closed the machine first; a
      well-shaped statement never throws. */
  lemma VerifiedStatement(c: Config, rs: seq<Request>, wit: Witness, validSig: (Proof, Wid) -> bool)
    requires Run(c, rs).Returns? && Verified(Run(c, rs).value, wit, validSig)
    requires forall p | p in c.programs :: CheckParams(p.mthd)
    ensures var m := Run(c, rs).value;
            var ran := RunSchedule(m.(error := None), wit.tmpl.stamp);
            && (Eval(m, [wit]).Throws? <==> !ran.closed && Misshapen(ran, wit))
            && (WellShaped(wit.tmpl) ==> Eval(m, [wit]).Returns?)
  {
    var m := Run(c, rs).value;
    var clean := m.(error := None);
    var ran := RunSchedule(clean, wit.tmpl.stamp);
    ShapedRun(c, rs);
    assert Shaped(c, clean);
    ShapedSchedule(c, clean, wit.tmpl.stamp);
    ScheduleCommitAt(clean, wit.tmpl.stamp);
    var es := ScheduleTrace(clean, wit.tmpl.stamp);
    TraceOutput(clean, es, ran);
    EvalOne(m, wit);
    if !ran.closed {
      assert Verified(ran, wit, validSig);
      ProgramThrows(c, ran, wit, validSig);
    }
  }

  /* ---------- no dead-end disputes ---------- */

  /** A program of the proposal lets its members take `action` on the path. */
  predicate Offers(prog: ProgramEntry, action: string, name: string) {
    Regex(name, prog.paths) && Regex(action, prog.actions)
  }

  predicate SomeOffers(programs: seq<ProgramEntry>, action: string, name: string) {
    exists p | p in programs :: Offers(p, action, name)
  }

  lemma SomeOffersLast(programs: seq<ProgramEntry>, action: string, name: string)
    requires programs != []
    ensures SomeOffers(programs, action, name)
       <==> SomeOffers(programs[..|programs| - 1], action, name) || Offers(programs[|programs| - 1], action, name)
  {
    var n := |programs| - 1;
    forall p ensures p in programs <==> p in programs[..n] || p == programs[n] {
      assert programs == programs[..n] + [programs[n]];
    }
  }

  lemma {:induction false} TermsExactly(name: string, programs: seq<ProgramEntry>)
    ensures AllTerms(name, programs).0.canDispute <==> SomeOffers(programs, "dispute", name)
    ensures AllTerms(name, programs).0.canResolve <==> SomeOffers(programs, "resolve", name)
  {
    if programs != [] {
      TermsExactly(name, programs[..|programs| - 1]);
      SomeOffersLast(programs, "dispute", name);
      SomeOffersLast(programs, "resolve", name);
    }
  }

  /** A machine can be set up exactly when every path that some program can dispute is one
      that some program can resolve. */
  lemma {:induction false} PathsSetUpExactly(pathnames: seq<string>, programs: seq<ProgramEntry>)
    ensures InitPaths(pathnames, programs).Returns?
       <==> forall name | name in pathnames ::
              SomeOffers(programs, "dispute", name) ==> SomeOffers(programs, "resolve", name)
  {
    if pathnames != [] {
      var n := |pathnames| - 1;
      PathsSetUpExactly(pathnames[..n], programs);
      TermsExactly(pathnames[n], programs);
      forall name ensures name in pathnames <==> name in pathnames[..n] || name == pathnames[n] {
        assert pathnames == pathnames[..n] + [pathnames[n]];
      }
    }
  }

  /** If the machine was set up and a statement can dispute a path, some program resolves it. */
  lemma DisputeHasResolver(c: Config, prog: ProgramEntry, name: string)
    requires InitVm(c).Returns? && prog in c.programs && name in c.pathnames
    requires Grants(CreateProgram(prog), "dispute", Some(name))
    ensures exists p :: p in c.programs && Grants(CreateProgram(p), "resolve", Some(name))
  {
    PathsSetUpExactly(c.pathnames, c.programs);
    assert Offers(prog, "dispute", name);
    var p :| p in c.programs && Offers(p, "resolve", name);
    assert Grants(CreateProgram(p), "resolve", Some(name));
  }

  /** While it runs the schedule, a disputed machine stays disputed until it closes. */
  lemma DisputeLasts(m: Machine, stopAt: int)
    requires m.output.None? && m.status.Disputed? && !m.closed
    ensures RunSchedule(m, stopAt).closed || RunSchedule(m, stopAt).status.Disputed?
    ensures !RunSchedule(m, stopAt).closed ==> RunSchedule(m, stopAt).output.None?
  {
    var inv := (n: Machine) => n.closed || (n.status.Disputed? && n.output.None?);
    var never := (wit: Witness) => false;
    var es := ScheduleTrace(m, stopAt);
    forall n, e | inv(n) && Legal(n, e) && (e.Stated? ==> never(e.wit)) ensures inv(Apply(n, e)) {
      if e.Scheduled? {
        AttemptFrame(n, e.input);
        if Update(n, e.input).Ok? {
          Accepted(n, e.input);
        }
      }
    }
    TraceInvariant(inv, never, m, es, RunSchedule(m, stopAt));
  }

  /** The statement's signatures lift the votes on record to its program's threshold. */
  ghost predicate Carries(m: Machine, wit: Witness, threshold: int, members: seq<string>) {
    exists k | 1 <= k <= |wit.sigs| ::
      NewVoters(members, VotesFor(m, wit.tmpl), wit.sigs, k) && |VotesFor(m, wit.tmpl)| + k >= threshold
  }

  lemma ResolveCommits(m: Machine, wit: Witness)
    requires m.status.Disputed? && wit.tmpl.action == "resolve" && wit.tmpl.path.Some?
    requires FindPath(m.paths, wit.tmpl.path.value) < |m.paths|
    requires m.commitAt <= wit.tmpl.stamp < m.expiresAt
    ensures Update(m, InputOf(wit)).Ok? && Update(m, InputOf(wit)).value.closed
    ensures Update(m, InputOf(wit)).value.output == wit.tmpl.path
  {
  }

  /** What a resolving statement of an endorse program does to a disputed machine. */
  lemma ResolveProgram(m: Machine, wit: Witness, threshold: int, members: seq<string>)
    requires m.status.Disputed? && !m.closed
    requires wit.tmpl.action == "resolve" && wit.tmpl.path.Some?
    requires FindPath(m.paths, wit.tmpl.path.value) < |m.paths|
    requires m.commitAt <= wit.tmpl.stamp < m.expiresAt
    requires Loads(m, wit) && m.programs[FindProgram(m.programs, wit.tmpl.progId)].mthd == Endorse(threshold, members)
    ensures !RunProgram(m, wit).1.Fault?
    ensures RunProgram(m, wit).0.closed <==> Carries(m, wit, threshold, members)
    ensures Carries(m, wit, threshold, members) ==>
              RunProgram(m, wit).1.Ok? && RunProgram(m, wit).0.output == wit.tmpl.path
  {
    var name := VoteLabel(wit.tmpl.path, wit.tmpl.action);
    var ballots := m.store[FindStore(m.store, wit.tmpl.progId)].ballots;
    assert Votes(ballots, name) == VotesFor(m, wit.tmpl);
    ApprovedExactly(threshold, members, ballots, name, wit.sigs);
    ResolveCommits(Record(m, wit), wit);
  }

  /** No dead-end disputes. On every reachable machine in dispute, a statement to resolve a
      path through an endorse program that the machine finds under its id and that offers it,
      stamped no earlier than the last commit and before expiry, never throws. It leaves the
      machine closed if and only if its signatures carry the vote or a task due by its stamp
      has closed it first, whatever due tasks run before it. */
  lemma NoDeadEnd(c: Config, rs: seq<Request>, wit: Witness, prog: ProgramEntry, threshold: int, members: seq<string>)
    requires Run(c, rs).Returns? && !Run(c, rs).value.closed && Run(c, rs).value.status.Disputed?
    requires Distinct(c.pathnames) && wit.tmpl.path.Some? && wit.tmpl.path.value in c.pathnames
    requires wit.tmpl.action == "resolve" && Grants(CreateProgram(prog), "resolve", wit.tmpl.path)
    requires prog.mthd == Endorse(threshold, members)
    requires FindProgram(Map(CreateProgram, c.programs), wit.tmpl.progId) < |c.programs|
    requires c.programs[FindProgram(Map(CreateProgram, c.programs), wit.tmpl.progId)] == prog
    requires Run(c, rs).value.commitAt <= wit.tmpl.stamp < c.expiresAt
    ensures var m := Run(c, rs).value;
            var ran := RunSchedule(m.(error := None), wit.tmpl.stamp);
            && Eval(m, [wit]).Returns?
            && (Eval(m, [wit]).value.closed <==> ran.closed || Carries(m, wit, threshold, members))
            && (!ran.closed && Carries(m, wit, threshold, members) ==>
                  Eval(m, [wit]).value.output == wit.tmpl.path && Eval(m, [wit]).value.error.None?)
  {
    var m := Run(c, rs).value;
    var clean := m.(error := None);
    var ran := RunSchedule(clean, wit.tmpl.stamp);
    OutputMeansSpent(c, rs);
    ShapedRun(c, rs);
    assert Shaped(c, clean);
    ShapedSchedule(c, clean, wit.tmpl.stamp);
    ScheduleCommitAt(clean, wit.tmpl.stamp);
    ScheduleKeepsError(clean, wit.tmpl.stamp);
    DisputeLasts(clean, wit.tmpl.stamp);
    EvalOne(m, wit);
    if !ran.closed {
      assert VotesFor(ran, wit.tmpl) == VotesFor(m, wit.tmpl);
      assert Carries(ran, wit, threshold, members) <==> Carries(m, wit, threshold, members);
      ResolveProgram(ran, wit, threshold, members);
      ProgramFrame(ran, wit);
    }
  }

  /** In particular: with no votes yet on the path's resolution, one signature each from
      threshold-many different members always leaves the machine closed. */
  lemma FirstVoteResolves(
    c: Config, rs: seq<Request>, wit: Witness, prog: ProgramEntry, threshold: int, members: seq<string>)
    requires Run(c, rs).Returns? && !Run(c, rs).value.closed && Run(c, rs).value.status.Disputed?
    requires Distinct(c.pathnames) && wit.tmpl.path.Some? && wit.tmpl.path.value in c.pathnames
    requires wit.tmpl.action == "resolve" && Grants(CreateProgram(prog), "resolve", wit.tmpl.path)
    requires prog.mthd == Endorse(threshold, members)
    requires FindProgram(Map(CreateProgram, c.programs), wit.tmpl.progId) < |c.programs|
    requires c.programs[FindProgram(Map(CreateProgram, c.programs), wit.tmpl.progId)] == prog
    requires Run(c, rs).value.commitAt <= wit.tmpl.stamp < c.expiresAt
    requires VotesFor(Run(c, rs).value, wit.tmpl) == []
    requires |wit.sigs| >= 1 && |wit.sigs| >= threshold && forall s | s in wit.sigs :: s.pub in members
    requires forall i, j | 0 <= i < j < |wit.sigs| :: wit.sigs[i].pub != wit.sigs[j].pub
    ensures Eval(Run(c, rs).value, [wit]).Returns? && Eval(Run(c, rs).value, [wit]).value.closed
  {
    NoDeadEnd(c, rs, wit, prog, threshold, members);
    assert NewVoters(members, [], wit.sigs, |wit.sigs|);
  }

  /* ---------- when a vote can still be carried ---------- */

  function Unvoted(members: seq<string>, voted: seq<string>): set<string> {
    (set x | x in members) - (set x | x in voted)
  }

  lemma {:induction false} Enumerate(keys: set<string>) returns (sigs: seq<Proof>)
    ensures |sigs| == |keys|
    ensures forall s | s in sigs :: s.pub in keys
    ensures forall i, j | 0 <= i < j < |sigs| :: sigs[i].pub != sigs[j].pub
    decreases |keys|
  {
    if keys == {} {
      sigs := [];
    } else {
      var x :| x in keys;
      var rest := Enumerate(keys - {x});
      sigs := [Proof(x, "")] + rest;
    }
  }

  /** The keys of the first `k` signatures. */
  function Pubs(sigs: seq<Proof>, k: nat): set<string>
    requires k <= |sigs|
  {
    if k == 0 then {} else Pubs(sigs, k - 1) + {sigs[k - 1].pub}
  }

  lemma {:induction false} PubsFrom(sigs: seq<Proof>, k: nat, pub: string)
    requires k <= |sigs|
    ensures pub in Pubs(sigs, k) <==> exists i | 0 <= i < k :: sigs[i].pub == pub
  {
    if k > 0 {
      PubsFrom(sigs, k - 1, pub);
    }
  }

  lemma {:induction false} PubsCount(sigs: seq<Proof>, k: nat)
    requires k <= |sigs| && forall i, j | 0 <= i < j < k :: sigs[i].pub != sigs[j].pub
    ensures |Pubs(sigs, k)| == k
  {
    if k > 0 {
      PubsCount(sigs, k - 1);
      PubsFrom(sigs, k - 1, sigs[k - 1].pub);
    }
  }

  lemma VotersBound(members: seq<string>, voted: seq<string>, sigs: seq<Proof>, k: nat)
    requires k <= |sigs| && NewVoters(members, voted, sigs, k)
    ensures k <= |Unvoted(members, voted)|
  {
    PubsCount(sigs, k);
    forall x | x in Pubs(sigs, k) ensures x in Unvoted(members, voted) {
      PubsFrom(sigs, k, x);
    }
    SubsetSize(Pubs(sigs, k), Unvoted(members, voted));
  }

  lemma SubsetSize(a: set<string>, b: set<string>)
    requires a <= b
    ensures |a| <= |b|
  {
    assert b == a + (b - a);
  }

  /** Some choice of signatures carries the vote exactly when a member is still to vote and the
      votes on record plus the members still to vote reach the threshold. Votes stay on record
      when the action they approved was refused, so a label can run out of members and a dispute
      can then no longer be resolved through that program. */
  lemma CarriableExactly(m: Machine, wit: Witness, threshold: int, members: seq<string>)
    ensures (exists sigs :: Carries(m, wit.(sigs := sigs), threshold, members))
       <==> var voted := VotesFor(m, wit.tmpl);
            Unvoted(members, voted) != {} && |voted| + |Unvoted(members, voted)| >= threshold
  {
    var voted := VotesFor(m, wit.tmpl);
    if sigs :| Carries(m, wit.(sigs := sigs), threshold, members) {
      var k :| 1 <= k <= |sigs| && NewVoters(members, voted, sigs, k) && |voted| + k >= threshold;
      VotersBound(members, voted, sigs, k);
    }
    if Unvoted(members, voted) != {} && |voted| + |Unvoted(members, voted)| >= threshold {
      var sigs := Enumerate(Unvoted(members, voted));
      assert NewVoters(members, voted, sigs, |sigs|);
      assert Carries(m, wit.(sigs := sigs), threshold, members);
    }
  }
}
