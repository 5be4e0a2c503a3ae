/** One proposal and its statements, for runs that show what can happen: a single member,
    whose signature alone approves any action on any path. */
module Samples {
  import opened Basics
  import opened Labels
  import opened Cvm
  import opened Traces
  import opened Ballots

  const ALICE := "aaaaaaaaaaaaaaaaaaaaaaaaaaaaaaaaaaaaaaaaaaaaaaaaaaaaaaaaaaaaaaaa"
  const SOLO := Endorse(1, [ALICE])
  const ANYTHING := ProgramEntry("*", "*", SOLO)

  function SoloProposal(pathnames: seq<string>, schedule: seq<Task>): Config {
    Config(START, "cvm", START + 100, pathnames, [ANYTHING], schedule, VMID)
  }

  function SoloStatement(action: string, path: Option<string>, stamp: int): Witness {
    var tmpl := Template(action, [], "", "endorse", path, ProgId(SOLO), stamp, VMID);
    Witness(tmpl, [Proof(ALICE, VMID + VMID)], StatementId(tmpl))
  }

  predicate SoloMachine(m: Machine) {
    m.programs == [CreateProgram(ANYTHING)] && |m.store| == 1 && m.store[0].progId == ProgId(SOLO)
  }

  /** The first statement for an action and path passes every check and is approved. */
  lemma SoloApproves(m: Machine, action: string, path: Option<string>, stamp: int)
    requires SoloMachine(m) && Votes(m.store[0].ballots, VoteLabel(path, action)) == []
    requires if path.Some? then path.value != "null" && action in PATH_ACTIONS else action !in PATH_ACTIONS
    ensures var wit := SoloStatement(action, path, stamp);
            && Loads(m, wit) && SoloMachine(Record(m, wit))
            && RunProgram(m, wit)
            == (Attempt(Record(m, wit), InputOf(wit)), Ending(Update(Record(m, wit), InputOf(wit))))
  {
    hide Update;
    var wit := SoloStatement(action, path, stamp);
    assert FindProgram(m.programs, ProgId(SOLO)) == 0 && FindStore(m.store, ProgId(SOLO)) == 0;
    assert NewVoters([ALICE], [], wit.sigs, 1);
    ApprovedExactly(1, [ALICE], m.store[0].ballots, VoteLabel(path, action), wit.sigs);
  }

  /** Everything is granted, `unlock` included, so every path starts locked. */
  lemma {:induction false} SoloPaths(names: seq<string>)
    ensures InitPaths(names, [ANYTHING]).Returns?
    ensures var paths := InitPaths(names, [ANYTHING]).value;
            |paths| == |names| && forall i | 0 <= i < |names| :: paths[i] == PathEntry(names[i], PathState.Locked)
  {
    if names != [] {
      SoloPaths(names[..|names| - 1]);
      assert [ANYTHING][..0] == [];
      assert AllTerms(names[|names| - 1], [ANYTHING]) == (Terms(true, true, true), PathState.Locked);
    }
  }

  lemma SoloInit(c: Config)
    requires c.programs == [ANYTHING]
    ensures InitVm(c).Returns? && SoloMachine(InitVm(c).value)
    ensures InitVm(c).value.store == [StoreEntry(ProgId(SOLO), [])]
    ensures InitVm(c).value.paths == Map((name: string) => PathEntry(name, PathState.Locked), c.pathnames)
  {
    SoloPaths(c.pathnames);
  }

  /** The vote is recorded under a new label, whatever comes of the action. */
  function SoloRecorded(m: Machine, action: string, path: Option<string>): Machine
    requires |m.store| == 1
  {
    m.(store := [StoreEntry(ProgId(SOLO), m.store[0].ballots + [Ballot(VoteLabel(path, action), [ALICE])])])
  }

  lemma SoloVote(m: Machine, action: string, path: Option<string>, stamp: int)
    requires SoloMachine(m) && Loads(m, SoloStatement(action, path, stamp))
    requires FindBallot(m.store[0].ballots, VoteLabel(path, action)) == |m.store[0].ballots|
    ensures Record(m, SoloStatement(action, path, stamp)) == SoloRecorded(m, action, path)
  {
    hide Loads;
    var (wit, ballots, name) := (SoloStatement(action, path, stamp), m.store[0].ballots, VoteLabel(path, action));
    var next := ballots + [Ballot(name, [ALICE])];
    assert FindProgram(m.programs, ProgId(SOLO)) == 0 && FindStore(m.store, ProgId(SOLO)) == 0;
    assert RecordEntry(ballots, name, ALICE) == Ok(next);
    FindBallotIs(next, name, |ballots|);
    assert Votes(next, name) == [ALICE];
    assert ExecEndorse(1, [ALICE], ballots, name, wit.sigs).0 == next;
    assert m.store[0 := StoreEntry(ProgId(SOLO), next)] == [StoreEntry(ProgId(SOLO), next)];
  }

  /** A first statement: the due tasks, the vote, and the commit step's outcome. */
  lemma SoloStep(m: Machine, ran: Machine, action: string, path: Option<string>, stamp: int)
    requires ran == RunSchedule(m, stamp) && SoloMachine(ran) && !ran.closed
    requires FindBallot(ran.store[0].ballots, VoteLabel(path, action)) == |ran.store[0].ballots|
    requires if path.Some? then path.value != "null" && action in PATH_ACTIONS else action !in PATH_ACTIONS
    ensures var (wit, r) := (SoloStatement(action, path, stamp), SoloRecorded(ran, action, path));
            var ended := Update(r, InputOf(wit));
            EvalStep(m, wit) == if ended.Ok? then Returns(ended.value)
                                else if ended.Err? then Returns(r.(error := Some(ended.error)))
                                else Throws
  {
    hide Update, Loads, Record, RunSchedule;
    SoloApproves(ran, action, path, stamp);
    SoloVote(ran, action, path, stamp);
  }

  /** The proposal with one path, just set up. */
  predicate OneLocked(m: Machine) {
    && SoloMachine(m) && m.store == [StoreEntry(ProgId(SOLO), [])]
    && m.paths == [PathEntry("payout", PathState.Locked)] && m.tasks == [] && m.status.Init?
    && m.commitAt == START && m.expiresAt == START + 100 && m.step == 0
    && !m.closed && m.error.None? && m.output.None?
  }

  lemma OneLockedStart()
    ensures InitVm(SoloProposal(["payout"], [])).Returns? && OneLocked(InitVm(SoloProposal(["payout"], [])).value)
  {
    SoloInit(SoloProposal(["payout"], []));
  }
}
