/** Where everything on record comes from: each commit from a program that grants it, each vote
    from a signature, each claim from the preimage of its lock. */
module Provenance {
  import opened Basics
  import opened Labels
  import opened Sorting
  import opened Cvm
  import opened Traces
  import opened Outcomes
  import opened Ballots
  import opened Guards
  import opened Acceptance
  import opened Tallies

  /* ---------- commits ---------- */

  /** A program of the proposal with this id lists the action, and the path where there is one. */
  predicate Listed(c: Config, t: Template) {
    exists p :: p in c.programs && ProgId(p.mthd) == t.progId && Regex(t.action, p.actions)
             && (t.path.Some? ==> Regex(t.path.value, p.paths))
  }

  /** A claim was met by some statement of the run with this very content. */
  ghost predicate Met(ok: Witness -> bool, t: Template) {
    t.progId.mthd.Claim? ==>
      exists w :: ok(w) && w.tmpl == t && t.progId.mthd.lock.Some?
               && Claims(t.progId.mthd.lock.value, t.progId.mthd.members, w)
  }

  ghost predicate LinkEarned(c: Config, ok: Witness -> bool, wid: Wid) {
    wid.StatementId? ==> Listed(c, wid.tmpl) && Met(ok, wid.tmpl) && exists w :: ok(w) && w.tmpl == wid.tmpl
  }

  ghost predicate HeadEarned(c: Config, ok: Witness -> bool, h: Head)
    decreases h
  {
    h.Link? ==> LinkEarned(c, ok, h.wid) && HeadEarned(c, ok, h.prev)
  }

  ghost predicate EarnedInv(c: Config, ok: Witness -> bool, m: Machine) {
    Shaped(c, m) && HeadEarned(c, ok, m.head)
  }

  lemma EarnedLink(c: Config, ok: Witness -> bool, m: Machine, wit: Witness)
    requires Shaped(c, m) && Loads(m, wit) && Decide(m, wit).1.Yes? && ok(wit) && Honest(wit)
    ensures LinkEarned(c, ok, wit.wid)
  {
    hide ExecEndorse, ExecClaim, Claims, Regex;
    var i := FindProgram(m.programs, wit.tmpl.progId);
    var p := c.programs[i];
    assert m.programs[i] == CreateProgram(p) && p in c.programs;
    assert ProgId(p.mthd) == wit.tmpl.progId;
    if p.mthd.Claim? {
      ClaimedExactly(p.mthd.lock.value, p.mthd.members, wit);
    }
  }

  lemma EarnedEvent(c: Config, ok: Witness -> bool, m: Machine, e: Event)
    requires EarnedInv(c, ok, m) && Legal(m, e) && (e.Stated? ==> ok(e.wit) && Honest(e.wit))
    ensures EarnedInv(c, ok, Apply(m, e))
  {
    hide Decide, Attempt, Loads, Shaped, LinkEarned;
    ShapedEvent(c, m, e);
    match e
    case SetError(_) =>
    case DropTask =>
    case Scheduled(input) => AttemptHead(m, input);
      assert !input.wid.StatementId?;
      ScheduledEarns(c, ok, input.wid);
    case Stated(wit) =>
      AttemptHead(Record(m, wit), InputOf(wit));
      if Decide(m, wit).1.Yes? {
        EarnedLink(c, ok, m, wit);
      }
  }

  lemma ScheduledEarns(c: Config, ok: Witness -> bool, wid: Wid)
    requires wid.MachineId?
    ensures LinkEarned(c, ok, wid)
  {
  }

  /** Every commit is earned. On every machine a run of honest statements reaches, each commit in
      its history that is not the schedule's was made by a submitted statement, through a program
      of the proposal that lists its action and its path; and a claim by the preimage of its lock
      and a member's signature. */
  lemma CommitsEarned(c: Config, rs: seq<Request>, ok: Witness -> bool)
    requires Run(c, rs).Returns? && AllStatements(rs, ok) && AllStatements(rs, Honest)
    ensures HeadEarned(c, ok, Run(c, rs).value.head)
  {
    var both := (w: Witness) => ok(w) && Honest(w);
    var inv := (m: Machine) => EarnedInv(c, ok, m);
    InitPathsShape(c.pathnames, c.programs);
    forall m, e | inv(m) && Legal(m, e) && (e.Stated? ==> both(e.wit)) ensures inv(Apply(m, e)) {
      EarnedEvent(c, ok, m, e);
    }
    RunInvariant(inv, both, c, rs);
  }

  /** A statement whose program is unknown, or does not list its action or its path, throws,
      unless a due task has closed the machine first. */
  lemma UnlistedThrows(c: Config, rs: seq<Request>, wit: Witness)
    requires Run(c, rs).Returns? && Run(c, rs).value.output.None?
    requires !exists p :: FindsProgram(c, wit.tmpl.progId, p) && Regex(wit.tmpl.action, p.actions)
                       && (wit.tmpl.path.Some? ==> Regex(wit.tmpl.path.value, p.paths))
    ensures var m := Run(c, rs).value;
            Eval(m, [wit]).Throws? <==> !RunSchedule(m.(error := None), wit.tmpl.stamp).closed
  {
    hide RunSchedule, Regex;
    var m := Run(c, rs).value;
    var clean := m.(error := None);
    var ran := RunSchedule(clean, wit.tmpl.stamp);
    ShapedRun(c, rs);
    assert Shaped(c, clean);
    ShapedSchedule(c, clean, wit.tmpl.stamp);
    EvalOne(m, wit);
    if FindProgram(ran.programs, wit.tmpl.progId) < |ran.programs| {
      var p := FoundProgram(c, ran, wit.tmpl.progId);
      assert !Loads(ran, wit);
    }
  }

  /* ---------- votes ---------- */

  /** Some statement of the run carries a signature by this key for this label of this program. */
  ghost predicate Signed(ok: Witness -> bool, id: ProgId, name: string, key: string) {
    exists w, s :: ok(w) && s in w.sigs && s.pub == key
                && w.tmpl.progId == id && VoteLabel(w.tmpl.path, w.tmpl.action) == name
  }

  ghost predicate StoreSigned(ok: Witness -> bool, store: seq<StoreEntry>) {
    forall e, name, key | e in store && key in Votes(e.ballots, name) :: Signed(ok, e.progId, name, key)
  }

  lemma SignedRecord(ok: Witness -> bool, m: Machine, wit: Witness)
    requires StoreSigned(ok, m.store) && Loads(m, wit) && ok(wit)
    ensures StoreSigned(ok, Record(m, wit).store)
  {
    hide Update;
    var (id, label_) := (wit.tmpl.progId, VoteLabel(wit.tmpl.path, wit.tmpl.action));
    var (i, k) := (FindProgram(m.programs, id), FindStore(m.store, id));
    var (ballots, next) := (m.store[k].ballots, Decide(m, wit).0);
    assert m.store[k] in m.store;
    forall name, key | key in Votes(next, name) ensures Signed(ok, id, name, key) {
      if key in Votes(ballots, name) {
        assert Signed(ok, m.store[k].progId, name, key);
      } else {
        NewVoteSigned(m, wit, name, key);
      }
    }
    forall e, name, key | e in Record(m, wit).store && key in Votes(e.ballots, name)
      ensures Signed(ok, e.progId, name, key)
    {
      var j :| 0 <= j < |m.store| && Record(m, wit).store[j] == e;
      if j != k {
        assert e == m.store[j] && e in m.store;
      }
    }
  }

  /** A vote that was not there before is one of the statement's own signatures. */
  lemma NewVoteSigned(m: Machine, wit: Witness, name: string, key: string)
    requires Loads(m, wit) && key in Votes(Decide(m, wit).0, name)
    requires key !in Votes(m.store[FindStore(m.store, wit.tmpl.progId)].ballots, name)
    ensures name == VoteLabel(wit.tmpl.path, wit.tmpl.action) && exists s :: s in wit.sigs && s.pub == key
  {
    var i := FindProgram(m.programs, wit.tmpl.progId);
    var ballots := m.store[FindStore(m.store, wit.tmpl.progId)].ballots;
    var label_ := VoteLabel(wit.tmpl.path, wit.tmpl.action);
    match m.programs[i].mthd
    case Endorse(threshold, members) =>
      var r := VotesLeft(threshold, members, ballots, label_, wit.sigs);
      if name == label_ {
        var j := KeyFrom(wit.sigs[..r], key);
        assert wit.sigs[j] in wit.sigs;
      }
    case _ =>
  }

  lemma SignedEvent(ok: Witness -> bool, m: Machine, e: Event)
    requires StoreSigned(ok, m.store) && Legal(m, e) && (e.Stated? ==> ok(e.wit))
    ensures StoreSigned(ok, Apply(m, e).store)
  {
    hide StoreSigned, Decide, Update;
    match e
    case SetError(_) =>
    case DropTask =>
    case Scheduled(input) => AttemptFrame(m, input);
    case Stated(wit) =>
      SignedRecord(ok, m, wit);
      AttemptFrame(Record(m, wit), InputOf(wit));
  }

  /** Every vote on record on a reachable machine was signed in a submitted statement. */
  lemma VotesSigned(c: Config, rs: seq<Request>, ok: Witness -> bool)
    requires Run(c, rs).Returns? && AllStatements(rs, ok)
    ensures StoreSigned(ok, Run(c, rs).value.store)
  {
    var inv := (m: Machine) => StoreSigned(ok, m.store);
    forall m, e | inv(m) && Legal(m, e) && (e.Stated? ==> ok(e.wit)) ensures inv(Apply(m, e)) {
      SignedEvent(ok, m, e);
    }
    RunInvariant(inv, ok, c, rs);
  }

  /* ---------- runs behind the gate ---------- */

  /** Every statement of the run passes `verify_witness_data` on the machine it is submitted to. */
  ghost predicate VerifiedRun(m: Machine, rs: seq<Request>, validSig: (Proof, Wid) -> bool)
    decreases |rs|
  {
    rs == [] ||
      (&& (rs[0].Evaluate? ==> forall w | w in rs[0].stack :: Verified(m, w, validSig))
       && (Serve(m, rs[0]).Returns? ==> VerifiedRun(Serve(m, rs[0]).value, rs[1..], validSig)))
  }

  /** What the gate leaves of a statement whatever the machine: its id and its signatures. */
  predicate Genuine(wit: Witness, validSig: (Proof, Wid) -> bool) {
    Honest(wit) && forall s | s in wit.sigs :: validSig(s, wit.wid)
  }

  lemma {:induction false} VerifiedGenuine(m: Machine, rs: seq<Request>, validSig: (Proof, Wid) -> bool)
    requires VerifiedRun(m, rs, validSig) && ServeAll(m, rs).Returns?
    ensures forall r, w | r in rs && r.Evaluate? && w in r.stack :: Genuine(w, validSig)
    decreases |rs|
  {
    if rs != [] {
      VerifiedGenuine(Serve(m, rs[0]).value, rs[1..], validSig);
      forall r, w | r in rs && r.Evaluate? && w in r.stack ensures Genuine(w, validSig) {
        if r != rs[0] {
          assert r in rs[1..];
        }
      }
    }
  }

  /** Behind the gate every vote on record has a valid signature, by that key, on a statement for
      that label of that program. */
  lemma VotesValid(
    c: Config, rs: seq<Request>, validSig: (Proof, Wid) -> bool, e: StoreEntry, name: string, key: string)
    requires Run(c, rs).Returns? && VerifiedRun(InitVm(c).value, rs, validSig)
    requires e in Run(c, rs).value.store && key in Votes(e.ballots, name)
    ensures exists w: Witness, s :: s in w.sigs && s.pub == key && validSig(s, StatementId(w.tmpl))
                        && w.tmpl.progId == e.progId && VoteLabel(w.tmpl.path, w.tmpl.action) == name
  {
    var ok := (w: Witness) => Genuine(w, validSig);
    VerifiedGenuine(InitVm(c).value, rs, validSig);
    assert AllStatements(rs, ok);
    VotesSigned(c, rs, ok);
    assert Signed(ok, e.progId, name, key);
    var w, s :| ok(w) && s in w.sigs && s.pub == key
             && w.tmpl.progId == e.progId && VoteLabel(w.tmpl.path, w.tmpl.action) == name;
    assert validSig(s, StatementId(w.tmpl));
  }

  /** Behind the gate a statement never ends in one of the clock errors, nor in that of a stranger's
      signature: what is left are votes given twice, unmet claims, and actions that the state of
      their path refuses. */
  lemma VerifiedErrors(c: Config, rs: seq<Request>, wit: Witness, validSig: (Proof, Wid) -> bool)
    requires Run(c, rs).Returns? && Verified(Run(c, rs).value, wit, validSig)
    requires Eval(Run(c, rs).value, [wit]).Returns? && Eval(Run(c, rs).value, [wit]).value.error.Some?
    ensures var e := Eval(Run(c, rs).value, [wit]).value.error.value;
            !e.NotAMember? && !e.BeforeCommit? && !e.Expired?
  {
    hide RunSchedule, RunProgram, Verified;
    var m := Run(c, rs).value;
    var clean := m.(error := None);
    var ran := RunSchedule(clean, wit.tmpl.stamp);
    ShapedRun(c, rs);
    assert Shaped(c, clean);
    GateStamp(m, wit, validSig);
    ShapedSchedule(c, clean, wit.tmpl.stamp);
    ScheduleCommitAt(clean, wit.tmpl.stamp);
    ScheduleKeepsError(clean, wit.tmpl.stamp);
    EvalOne(m, wit);
    if !ran.closed {
      SameGate(c, m, ran, wit, validSig);
      GateErrors(ran, wit);
      ProgramFrame(ran, wit);
    }
  }

  lemma GateStamp(m: Machine, wit: Witness, validSig: (Proof, Wid) -> bool)
    requires Verified(m, wit, validSig)
    ensures m.output.None? && m.commitAt <= wit.tmpl.stamp < m.expiresAt
  {
  }

  /** Every signature is by a member of the program found under the statement's id. */
  predicate AllMembers(m: Machine, wit: Witness) {
    var i := FindProgram(m.programs, wit.tmpl.progId);
    i < |m.programs| && forall s | s in wit.sigs :: s.pub in MembersOf(m.programs[i].mthd)
  }

  lemma SameGate(c: Config, m: Machine, n: Machine, wit: Witness, validSig: (Proof, Wid) -> bool)
    requires Shaped(c, m) && Shaped(c, n) && Verified(m, wit, validSig)
    ensures AllMembers(n, wit)
  {
  }

  lemma GateErrors(m: Machine, wit: Witness)
    requires AllMembers(m, wit) && Timely(m, wit.tmpl.stamp)
    ensures var ended := RunProgram(m, wit).1;
            ended.Err? ==> !ended.error.NotAMember? && !ended.error.BeforeCommit? && !ended.error.Expired?
  {
    hide Update;
    if Loads(m, wit) {
      var i := FindProgram(m.programs, wit.tmpl.progId);
      DecideErrors(m, wit);
      if Decide(m, wit).1.Yes? {
        UpdateErrors(Record(m, wit), InputOf(wit));
      }
    }
  }

  lemma DecideErrors(m: Machine, wit: Witness)
    requires AllMembers(m, wit) && Loads(m, wit)
    ensures var verdict := Decide(m, wit).1;
            verdict.Bad? ==> !verdict.error.NotAMember? && !verdict.error.BeforeCommit? && !verdict.error.Expired?
  {
    var i := FindProgram(m.programs, wit.tmpl.progId);
    match m.programs[i].mthd
    case Endorse(threshold, members) =>
      var ballots := m.store[FindStore(m.store, wit.tmpl.progId)].ballots;
      var r := VotesLeft(threshold, members, ballots, VoteLabel(wit.tmpl.path, wit.tmpl.action), wit.sigs);
    case _ =>
  }

  lemma UpdateErrors(m: Machine, input: Input)
    requires Timely(m, input.stamp)
    ensures Update(m, input).Err? ==>
              var e := Update(m, input).error;
              !e.NotAMember? && !e.BeforeCommit? && !e.Expired?
  {
  }
}
