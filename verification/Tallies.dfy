/** Which votes a statement leaves on record, exactly, and how the votes of several statements
    add up over a run. */
module Tallies {
  import opened Basics
  import opened Labels
  import opened Sorting
  import opened Cvm
  import opened Traces
  import opened Schedules
  import opened Outcomes
  import opened Ballots
  import opened Guards
  import opened Acceptance
  import opened Replays

  function Pubkeys(sigs: seq<Proof>): seq<string> {
    if sigs == [] then [] else [sigs[0].pub] + Pubkeys(sigs[1..])
  }

  /** Why the signature behind the first `r` ones is refused. */
  function BadVote(members: seq<string>, name: string, pub: string): VmError {
    if pub in members then RecordExists(name, pub) else NotAMember
  }

  /** What a statement's signatures leave, when the first `r` of them are recorded: those votes
      and no others, under this label and no other, stopping at the threshold, at the first
      signature that is no first vote of a member, or at the end. */
  ghost predicate Leaves(
    threshold: int, members: seq<string>, ballots: seq<Ballot>, name: string, sigs: seq<Proof>,
    next: seq<Ballot>, verdict: Verdict, r: nat)
  {
    var voted := Votes(ballots, name);
    && r <= |sigs| && NewVoters(members, voted, sigs, r)
    && Votes(next, name) == voted + Pubkeys(sigs[..r])
    && (forall other | other != name :: Votes(next, other) == Votes(ballots, other))
    && (r >= 2 ==> |voted| + r - 1 < threshold)
    && match verdict
       case Yes => 1 <= r && |voted| + r >= threshold
       case No => r == |sigs| && (r > 0 ==> |voted| + r < threshold)
       case Bad(e) => r < |sigs| && (r > 0 ==> |voted| + r < threshold)
                      && !NewVoters(members, voted, sigs, r + 1) && e == BadVote(members, name, sigs[r].pub)
  }

  lemma {:induction false} VotesLeft(
    threshold: int, members: seq<string>, ballots: seq<Ballot>, name: string, sigs: seq<Proof>) returns (r: nat)
    ensures var (next, verdict) := ExecEndorse(threshold, members, ballots, name, sigs);
            Leaves(threshold, members, ballots, name, sigs, next, verdict, r)
    decreases |sigs|
  {
    var voted := Votes(ballots, name);
    r := 0;
    if sigs != [] && sigs[0].pub in members && RecordEntry(ballots, name, sigs[0].pub).Ok? {
      var pub := sigs[0].pub;
      var mid := RecordEntry(ballots, name, pub).value;
      forall other ensures Votes(mid, other) == if other == name then voted + [pub] else Votes(ballots, other) {
        RecordedVote(ballots, name, pub, other);
      }
      RecordedVote(ballots, name, pub, name);
      if |voted| + 1 >= threshold {
        r := 1;
        assert sigs[..1] == [sigs[0]] && [sigs[0]][1..] == [];
      } else {
        var tail := VotesLeft(threshold, members, mid, name, sigs[1..]);
        LeavesMore(threshold, members, ballots, mid, name, sigs, tail);
        r := tail + 1;
      }
    }
  }

  /** One recorded vote in front of the others. */
  lemma LeavesMore(
    threshold: int, members: seq<string>, ballots: seq<Ballot>, mid: seq<Ballot>, name: string, sigs: seq<Proof>,
    r: nat)
    requires sigs != [] && sigs[0].pub in members && sigs[0].pub !in Votes(ballots, name)
    requires |Votes(ballots, name)| + 1 < threshold
    requires Votes(mid, name) == Votes(ballots, name) + [sigs[0].pub]
    requires forall other | other != name :: Votes(mid, other) == Votes(ballots, other)
    requires var (next, verdict) := ExecEndorse(threshold, members, mid, name, sigs[1..]);
             Leaves(threshold, members, mid, name, sigs[1..], next, verdict, r)
    ensures var (next, verdict) := ExecEndorse(threshold, members, mid, name, sigs[1..]);
            Leaves(threshold, members, ballots, name, sigs, next, verdict, r + 1)
  {
    hide ExecEndorse, Votes;
    var (next, verdict) := ExecEndorse(threshold, members, mid, name, sigs[1..]);
    var voted := Votes(ballots, name);
    assert sigs[..r + 1][1..] == sigs[1..][..r] && sigs[..r + 1][0] == sigs[0];
    assert (voted + [sigs[0].pub]) + Pubkeys(sigs[1..][..r]) == voted + Pubkeys(sigs[..r + 1]);
    if r + 1 >= 2 {
      NewVotersTail(members, voted, sigs, r + 1);
    } else {
      assert NewVoters(members, voted, sigs, 1);
    }
    if verdict.Bad? {
      assert sigs[1..][r] == sigs[r + 1];
      NewVotersTail(members, voted, sigs, r + 2);
    }
  }

  /** Voting in two goes is voting in one. */
  lemma {:induction false} VotesSplit(
    threshold: int, members: seq<string>, ballots: seq<Ballot>, name: string, a: seq<Proof>, b: seq<Proof>)
    requires ExecEndorse(threshold, members, ballots, name, a).1.No?
    ensures ExecEndorse(threshold, members, ballots, name, a + b)
         == ExecEndorse(threshold, members, ExecEndorse(threshold, members, ballots, name, a).0, name, b)
    decreases |a|
  {
    if a == [] {
      assert a + b == b;
    } else {
      assert (a + b)[1..] == a[1..] + b && (a + b)[0] == a[0];
      VotesSplit(threshold, members, RecordEntry(ballots, name, a[0].pub).value, name, a[1..], b);
    }
  }

  /* ---------- several statements ---------- */

  function AllSigs(stack: seq<Witness>): seq<Proof> {
    if stack == [] then [] else stack[0].sigs + AllSigs(stack[1..])
  }

  /** Signatures that are all first votes of different members, however they are cut in two. */
  lemma NewVotersCut(members: seq<string>, voted: seq<string>, a: seq<Proof>, b: seq<Proof>)
    requires NewVoters(members, voted, a + b, |a + b|)
    ensures NewVoters(members, voted, a, |a|)
    ensures NewVoters(members, voted + Pubkeys(a), b, |b|)
  {
    var all := a + b;
    assert forall i | 0 <= i < |a| :: all[i] == a[i];
    assert forall i | 0 <= i < |b| :: all[|a| + i] == b[i];
    forall i | 0 <= i < |b| ensures b[i].pub in members && b[i].pub !in voted + Pubkeys(a) {
      assert all[|a| + i] == b[i];
      forall j | 0 <= j < |a| ensures a[j].pub != b[i].pub {
        assert all[j] == a[j];
      }
      if b[i].pub in Pubkeys(a) {
        var _ := KeyFrom(a, b[i].pub);
      }
    }
    forall i, j | 0 <= i < j < |b| ensures b[i].pub != b[j].pub {
      assert all[|a| + i] == b[i] && all[|a| + j] == b[j];
    }
  }

  lemma {:induction false} KeyFrom(sigs: seq<Proof>, pub: string) returns (i: nat)
    requires pub in Pubkeys(sigs)
    ensures i < |sigs| && sigs[i].pub == pub
  {
    if sigs[0].pub == pub {
      i := 0;
    } else {
      i := KeyFrom(sigs[1..], pub);
      i := i + 1;
    }
  }

  lemma {:induction false} PubkeysLength(sigs: seq<Proof>)
    ensures |Pubkeys(sigs)| == |sigs|
  {
    if sigs != [] {
      PubkeysLength(sigs[1..]);
    }
  }

  /** A statement to resolve the path through the program. */
  predicate Resolves(c: Config, prog: ProgramEntry, path: string, w: Witness) {
    && w.tmpl.action == "resolve" && w.tmpl.path == Some(path) && w.tmpl.progId == ProgId(prog.mthd)
    && GrantsStatement(c, prog, w.tmpl)
  }

  predicate InDispute(c: Config, m: Machine) {
    Shaped(c, m) && !m.closed && m.output.None? && m.status.Disputed?
  }

  /** What first votes of different members do to a program: they carry it, or they are all
      recorded and not enough yet. */
  lemma VotesTaken(m: Machine, wit: Witness, threshold: int, members: seq<string>)
    requires Loads(m, wit) && m.programs[FindProgram(m.programs, wit.tmpl.progId)].mthd == Endorse(threshold, members)
    requires NewVoters(members, VotesFor(m, wit.tmpl), wit.sigs, |wit.sigs|)
    ensures var (ballots, verdict) := Decide(m, wit);
            && !verdict.Bad?
            && (verdict.No? ==>
                  && Votes(ballots, VoteLabel(wit.tmpl.path, wit.tmpl.action))
                  == VotesFor(m, wit.tmpl) + Pubkeys(wit.sigs)
                  && (wit.sigs != [] ==> |VotesFor(m, wit.tmpl)| + |wit.sigs| < threshold))
  {
    hide ExecEndorse;
    var name := VoteLabel(wit.tmpl.path, wit.tmpl.action);
    var ballots := m.store[FindStore(m.store, wit.tmpl.progId)].ballots;
    assert Votes(ballots, name) == VotesFor(m, wit.tmpl);
    var r := VotesLeft(threshold, members, ballots, name, wit.sigs);
    assert wit.sigs[..|wit.sigs|] == wit.sigs;
  }

  /** A statement whose signatures are first votes of different members, after the due tasks: it
      closes the machine, or leaves its votes on record and the dispute as it was. */
  lemma VotesStep(
    c: Config, m: Machine, wit: Witness, prog: ProgramEntry, threshold: int, members: seq<string>, path: string)
    requires InDispute(c, m) && Resolves(c, prog, path, wit) && prog.mthd == Endorse(threshold, members)
    requires FindsProgram(c, ProgId(prog.mthd), prog) && m.commitAt <= wit.tmpl.stamp < m.expiresAt
    requires NewVoters(members, VotesFor(m, wit.tmpl), wit.sigs, |wit.sigs|)
    ensures var (n, ended) := RunProgram(m, wit);
            && ended.Ok? && n.error == m.error
            && (n.closed || (
                  && InDispute(c, n) && n.commitAt == m.commitAt && n.expiresAt == m.expiresAt
                  && VotesFor(n, wit.tmpl) == VotesFor(m, wit.tmpl) + Pubkeys(wit.sigs)
                  && (wit.sigs != [] ==> |VotesFor(m, wit.tmpl)| + |wit.sigs| < threshold)))
  {
    hide Update, Decide, NewVoters, VotesFor, FindsProgram, Votes;
    ProgramFound(c, m, wit.tmpl.progId, prog);
    VotesTaken(m, wit, threshold, members);
    RecordedVotes(m, wit);
    ProgramFrame(m, wit);
    if Decide(m, wit).1.Yes? {
      ResolveCommits(Record(m, wit), wit);
    }
  }

  lemma RecordedVotes(m: Machine, wit: Witness)
    requires Loads(m, wit)
    ensures Record(m, wit) == m.(store := Record(m, wit).store)
    ensures |Record(m, wit).store| == |m.store|
    ensures forall i | 0 <= i < |m.store| :: Record(m, wit).store[i].progId == m.store[i].progId
    ensures VotesFor(Record(m, wit), wit.tmpl) == Votes(Decide(m, wit).0, VoteLabel(wit.tmpl.path, wit.tmpl.action))
  {
    FindStoreSame(m.store, Record(m, wit).store, wit.tmpl.progId);
  }

  lemma {:induction false} ClosedStays(b: Machine, stack: seq<Witness>)
    requires b.closed && b.error.None?
    ensures Replay(b, stack).Returns? && Replay(b, stack).value.closed
    decreases |stack|
  {
    if b.output.Some? {
      FinalReplay(b, stack);
    } else if stack != [] {
      ClosedStep(b, stack[0]);
      ClosedStays(Eval(b, [stack[0]]).value, stack[1..]);
    }
  }

  lemma {:induction false} VotesAdd(
    c: Config, m: Machine, stack: seq<Witness>, prog: ProgramEntry, threshold: int, members: seq<string>, path: string)
    requires InDispute(c, m) && prog.mthd == Endorse(threshold, members) && FindsProgram(c, ProgId(prog.mthd), prog)
    requires stack != [] && InStampOrder(stack) && m.commitAt <= stack[0].tmpl.stamp
    requires forall w | w in stack :: Resolves(c, prog, path, w) && w.tmpl.stamp < c.expiresAt
    requires var (voted, sigs) := (VotesFor(m, stack[0].tmpl), AllSigs(stack));
             sigs != [] && NewVoters(members, voted, sigs, |sigs|) && |voted| + |sigs| >= threshold
    ensures Replay(m, stack).Returns? && Replay(m, stack).value.closed
    decreases |stack|
  {
    hide RunSchedule, RunProgram, NewVoters, VotesFor, GrantsStatement, FindsProgram;
    var (wit, rest) := (stack[0], stack[1..]);
    assert wit in stack;
    var clean := m.(error := None);
    var ran := RunSchedule(clean, wit.tmpl.stamp);
    assert InDispute(c, clean);
    ShapedSchedule(c, clean, wit.tmpl.stamp);
    ScheduleCommitAt(clean, wit.tmpl.stamp);
    ScheduleKeepsError(clean, wit.tmpl.stamp);
    DisputeLasts(clean, wit.tmpl.stamp);
    EvalOne(m, wit);
    if ran.closed {
      ClosedStays(ran, rest);
    } else {
      SameVotes(m, ran, wit.tmpl);
      NewVotersCut(members, VotesFor(m, wit.tmpl), wit.sigs, AllSigs(rest));
      VotesStep(c, ran, wit, prog, threshold, members, path);
      var n := RunProgram(ran, wit).0;
      if n.closed {
        ClosedStays(n, rest);
      } else {
        PubkeysLength(wit.sigs);
        assert AllSigs(rest) != [] && rest != [];
        assert rest[0] in stack;
        SameLabel(n, wit.tmpl, rest[0].tmpl);
        VotesAdd(c, n, rest, prog, threshold, members, path);
      }
    }
  }

  lemma SameVotes(m: Machine, n: Machine, t: Template)
    requires n.store == m.store
    ensures VotesFor(n, t) == VotesFor(m, t)
  {
  }

  lemma SameLabel(m: Machine, t: Template, u: Template)
    requires t.progId == u.progId && t.path == u.path && t.action == u.action
    ensures VotesFor(m, t) == VotesFor(m, u)
  {
  }

  /** Votes add up over statements. On every reachable machine in dispute, timely statements to
      resolve one path through one program, submitted one after the other, that together bring
      enough first votes of different members leave the machine closed, whatever due tasks run
      in between. */
  lemma VotesAddUp(
    c: Config, rs: seq<Request>, stack: seq<Witness>, prog: ProgramEntry, threshold: int, members: seq<string>,
    path: string)
    requires Run(c, rs).Returns? && !Run(c, rs).value.closed && Run(c, rs).value.status.Disputed?
    requires Distinct(c.pathnames)
    requires prog.mthd == Endorse(threshold, members) && FindsProgram(c, ProgId(prog.mthd), prog)
    requires stack != [] && InStampOrder(stack) && Run(c, rs).value.commitAt <= stack[0].tmpl.stamp
    requires forall w | w in stack :: Resolves(c, prog, path, w) && w.tmpl.stamp < c.expiresAt
    requires var (voted, sigs) := (VotesFor(Run(c, rs).value, stack[0].tmpl), AllSigs(stack));
             sigs != [] && NewVoters(members, voted, sigs, |sigs|) && |voted| + |sigs| >= threshold
    ensures Replay(Run(c, rs).value, stack).Returns? && Replay(Run(c, rs).value, stack).value.closed
  {
    OutputMeansSpent(c, rs);
    ShapedRun(c, rs);
    VotesAdd(c, Run(c, rs).value, stack, prog, threshold, members, path);
  }
}
