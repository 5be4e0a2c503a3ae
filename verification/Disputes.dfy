/** Locked and disputed paths over whole runs: how a path comes to start locked, what it then
    takes to spend it, where disputes come from, and how the votes to resolve one run out. */
module Disputes {
  import opened Basics
  import opened Labels
  import opened Sorting
  import opened Cvm
  import opened Traces
  import opened Schedules
  import opened Outcomes
  import opened Ballots
  import opened Guards
  import opened Samples

  /* ---------- paths that start locked ---------- */

  /** No valid action occurs inside a different one, so for them both readings of a pattern agree. */
  lemma ActionsReadExactly(expr: string, name: string)
    requires Listed(expr, VALID_ACTIONS) && name in VALID_ACTIONS
    ensures Regex(name, expr) <==> name in AccessList(expr, VALID_ACTIONS)
  {
    forall x, y | x in VALID_ACTIONS && y in VALID_ACTIONS && Contains(y, x) ensures x == y {
      if x != y {
        NoActionInside(x, y);
      }
    }
    ReadingsAgreeExactly(VALID_ACTIONS);
  }

  lemma NoActionInside(x: string, y: string)
    requires x in VALID_ACTIONS && y in VALID_ACTIONS && x != y
    ensures !Contains(y, x)
  {
    if x == "close" {
      MissingChar(y, x, if y == "lock" then 4 else 0);
    } else if x == "lock" {
      MissingChar(y, x, 3);
    } else if x == "release" {
      MissingChar(y, x, 4);
    } else if x == "dispute" {
      MissingChar(y, x, 5);
    } else if x == "resolve" {
      MissingChar(y, x, 5);
    } else {
      MissingChar(y, x, 3);
    }
  }

  /** But `unlock` is no valid action, and among them only `lock` occurs inside it. */
  lemma UnlockGranted(actions: string)
    requires Listed(actions, VALID_ACTIONS)
    ensures Regex("unlock", actions) <==> "lock" in AccessList(actions, VALID_ACTIONS)
  {
    forall part | part in VALID_ACTIONS ensures Contains("unlock", part) <==> part == "lock" {
      InsideUnlock(part);
    }
  }

  lemma InsideUnlock(part: string)
    requires part in VALID_ACTIONS
    ensures Contains("unlock", part) <==> part == "lock"
  {
    if part == "lock" {
      assert OccursAt("unlock", part, 2);
    } else if part == "spend" {
      MissingChar("unlock", part, 0);
    } else if part == "dispute" {
      MissingChar("unlock", part, 2);
    } else {
      MissingChar("unlock", part, if part == "close" then 4 else 1);
    }
  }

  lemma {:induction false} StartStateExactly(name: string, programs: seq<ProgramEntry>)
    ensures AllTerms(name, programs).1.Locked? <==> SomeOffers(programs, "unlock", name)
  {
    if programs != [] {
      InitPathNotSpent(name, programs);
      StartStateExactly(name, programs[..|programs| - 1]);
      SomeOffersLast(programs, "unlock", name);
    }
  }

  /** A path starts locked if and only if some program on it passes the test for `unlock`: on a
      checked proposal, if and only if some program on it grants `lock`. */
  lemma StartsLockedExactly(c: Config, i: nat)
    requires InitVm(c).Returns? && i < |c.pathnames|
    ensures i < |InitVm(c).value.paths| && InitVm(c).value.paths[i].name == c.pathnames[i]
    ensures InitVm(c).value.paths[i].state.Locked? <==> SomeOffers(c.programs, "unlock", c.pathnames[i])
    ensures (forall p | p in c.programs :: Listed(p.actions, VALID_ACTIONS)) ==>
              (InitVm(c).value.paths[i].state.Locked? <==>
                 exists p :: p in c.programs && Regex(c.pathnames[i], p.paths)
                          && "lock" in AccessList(p.actions, VALID_ACTIONS))
  {
    InitPathsShape(c.pathnames, c.programs);
    StartStateExactly(c.pathnames[i], c.programs);
    if forall p | p in c.programs :: Listed(p.actions, VALID_ACTIONS) {
      forall p | p in c.programs
        ensures Offers(p, "unlock", c.pathnames[i])
           <==> Regex(c.pathnames[i], p.paths) && "lock" in AccessList(p.actions, VALID_ACTIONS)
      {
        UnlockGranted(p.actions);
      }
    }
  }

  /** On a machine that is not in dispute, no accepted input spends or opens a locked path. */
  lemma LockedAttempt(m: Machine, input: Input, i: nat)
    requires i < |m.paths| && !m.status.Disputed? && (m.paths[i].state.Locked? || m.paths[i].state.Disputed?)
    ensures |Attempt(m, input).paths| == |m.paths|
    ensures Attempt(m, input).paths[i].state.Locked? || Attempt(m, input).paths[i].state.Disputed?
  {
    hide Update;
    if Update(m, input).Ok? {
      Accepted(m, input);
    }
  }

  lemma LockedEvent(m: Machine, e: Event, i: nat)
    requires Legal(m, e) && !m.status.Disputed?
    requires i < |m.paths| && (m.paths[i].state.Locked? || m.paths[i].state.Disputed?)
    ensures i < |Apply(m, e).paths|
    ensures Apply(m, e).paths[i].state.Locked? || Apply(m, e).paths[i].state.Disputed?
  {
    hide Attempt, Decide;
    if e.Scheduled? {
      LockedAttempt(m, e.input, i);
    } else if e.Stated? {
      LockedAttempt(Record(m, e.wit), InputOf(e.wit), i);
    }
  }

  lemma {:induction false} LockedTrace(m: Machine, es: seq<Event>, last: Machine, i: nat) returns (k: nat, mid: Machine)
    requires Trace(m, es, last)
    requires i < |m.paths| && (m.paths[i].state.Locked? || m.paths[i].state.Disputed?)
    requires i < |last.paths| && last.paths[i].state.Spent?
    ensures k < |es| && Trace(m, es[..k], mid) && Trace(mid, es[k..], last)
    ensures mid.status.Disputed? && i < |mid.paths| && !mid.paths[i].state.Spent?
    decreases |es|
  {
    hide Apply, Legal;
    if m.status.Disputed? {
      k, mid := 0, m;
      assert es[0..] == es;
    } else {
      var e := es[0];
      LockedEvent(m, e, i);
      k, mid := LockedTrace(Apply(m, e), es[1..], last, i);
      k := k + 1;
      assert es[..k] == [e] + es[1..][..k - 1] && es[k..] == es[1..][k - 1..];
      assert es[..k][0] == e && es[..k][1..] == es[1..][..k - 1];
    }
  }

  /** A path that starts locked is spent only out of a dispute: on every run that ends with it
      spent, some machine along the way had status `disputed` while it was not spent yet. */
  lemma LockedSpentInDispute(c: Config, rs: seq<Request>, i: nat) returns (k: nat, mid: Machine)
    requires Run(c, rs).Returns? && i < |c.pathnames| && i < |InitVm(c).value.paths|
    requires InitVm(c).value.paths[i].state.Locked?
    requires i < |Run(c, rs).value.paths| && Run(c, rs).value.paths[i].state.Spent?
    ensures var es := RunEvents(c, rs);
            k < |es| && Trace(InitVm(c).value, es[..k], mid) && Trace(mid, es[k..], Run(c, rs).value)
    ensures mid.status.Disputed? && i < |mid.paths| && !mid.paths[i].state.Spent?
  {
    var init := InitVm(c).value;
    var es := ServeAllTrace(init, rs, _ => true);
    k, mid := LockedTrace(init, es, Run(c, rs).value, i);
  }

  /* ---------- disputed paths and disputed machines ---------- */

  predicate SomeDisputed(paths: seq<PathEntry>) {
    exists e :: e in paths && e.state.Disputed?
  }

  predicate DisputeInv(m: Machine) {
    && (m.status.Closed? || m.status.Spent? ==> m.closed)
    && (!m.closed ==> (m.status.Disputed? <==> SomeDisputed(m.paths)))
  }

  lemma DisputeAttempt(m: Machine, input: Input)
    requires DisputeInv(m)
    ensures DisputeInv(Attempt(m, input))
  {
    hide Update;
    AttemptFrame(m, input);
    if Update(m, input).Ok? && !Attempt(m, input).closed {
      Accepted(m, input);
      var (i, now) := (FindPath(m.paths, input.path.value), Attempt(m, input).paths);
      if now[i].state.Disputed? {
        assert now[i] in now;
      } else if SomeDisputed(m.paths) {
        var e :| e in m.paths && e.state.Disputed?;
        var j :| 0 <= j < |m.paths| && m.paths[j] == e;
        assert j != i && now[j] in now;
      }
    }
  }

  /** A reachable machine that is not closed is in dispute if and only if one of its paths is. */
  lemma DisputedExactly(c: Config, rs: seq<Request>)
    requires Run(c, rs).Returns? && !Run(c, rs).value.closed
    ensures Run(c, rs).value.status.Disputed? <==> SomeDisputed(Run(c, rs).value.paths)
  {
    InitPathsShape(c.pathnames, c.programs);
    assert DisputeInv(InitVm(c).value) by {
      var paths := InitVm(c).value.paths;
      forall e | e in paths ensures !e.state.Disputed? {
        var i :| 0 <= i < |paths| && paths[i] == e;
        InitPathNotSpent(c.pathnames[i], c.programs);
      }
    }
    forall m, e | DisputeInv(m) && Legal(m, e) ensures DisputeInv(Apply(m, e)) {
      match e {
        case SetError(_) =>
        case DropTask =>
        case Scheduled(input) => DisputeAttempt(m, input);
        case Stated(wit) => DisputeAttempt(Record(m, wit), InputOf(wit));
      }
    }
    RunInvariant(m => DisputeInv(m), _ => true, c, rs);
  }

  /* ---------- where disputes come from ---------- */

  /** A scheduled task disputes the path; the setup of the machine does not look at tasks. */
  predicate ScheduledDispute(c: Config, name: string) {
    exists t :: t in c.schedule && "dispute" in AccessList(t.actions, VALID_ACTIONS)
             && name in AccessList(t.paths, c.pathnames)
  }

  predicate OriginInv(c: Config, m: Machine) {
    && Shaped(c, m)
    && (forall t | t in m.tasks :: t in c.schedule)
    && forall e | e in m.paths && e.state.Disputed? ::
         SomeOffers(c.programs, "resolve", e.name) || ScheduledDispute(c, e.name)
  }

  lemma {:induction false} ActionInputsMembers(action: string, plist: seq<string>, stamp: int, wid: Wid)
    ensures forall input | input in ActionInputs(action, plist, stamp, wid) ::
              input.action == action && input.path.Some? && input.path.value in plist
  {
    if plist != [] {
      ActionInputsMembers(action, plist[1..], stamp, wid);
    }
  }

  lemma {:induction false} InputsMembers(alist: seq<string>, plist: seq<string>, stamp: int, wid: Wid)
    ensures forall input | input in Inputs(alist, plist, stamp, wid) ::
              input.action in alist && (input.path.Some? ==> input.path.value in plist)
  {
    if alist != [] {
      ActionInputsMembers(alist[0], plist, stamp, wid);
      InputsMembers(alist[1..], plist, stamp, wid);
    }
  }

  lemma {:induction false} ShapedNames(paths: seq<PathEntry>, names: seq<string>)
    requires |paths| == |names| && forall i | 0 <= i < |paths| :: paths[i].name == names[i]
    ensures PathNames(paths) == names
  {
    if paths != [] {
      ShapedNames(paths[1..], names[1..]);
    }
  }

  /** An input can be accepted as a dispute only if it says so. */
  lemma OriginAttempt(c: Config, m: Machine, input: Input)
    requires OriginInv(c, m)
    requires input.action == "dispute" && input.path.Some? ==>
               SomeOffers(c.programs, "resolve", input.path.value) || ScheduledDispute(c, input.path.value)
    ensures OriginInv(c, Attempt(m, input))
  {
    hide Update, SomeOffers, ScheduledDispute;
    ShapedAttempt(c, m, input);
    AttemptFrame(m, input);
    if Update(m, input).Ok? {
      Accepted(m, input);
      var now := Attempt(m, input).paths;
      forall e | e in now && e.state.Disputed?
        ensures SomeOffers(c.programs, "resolve", e.name) || ScheduledDispute(c, e.name)
      {
        var j :| 0 <= j < |now| && now[j] == e;
        if input.action == "close" || j != FindPath(m.paths, input.path.value) {
          assert now[j] == m.paths[j] && m.paths[j] in m.paths;
        }
      }
    }
  }

  lemma OriginScheduled(c: Config, m: Machine, input: Input)
    requires OriginInv(c, m) && FromQueue(m, input)
    ensures OriginInv(c, Attempt(m, input))
  {
    hide Inputs, AccessList;
    var t :| t in m.tasks && input in TaskInputs(m, t);
    ShapedNames(m.paths, c.pathnames);
    InputsMembers(AccessList(t.actions, VALID_ACTIONS), AccessList(t.paths, c.pathnames),
                  DueAt(m, t), MachineId(m.vmid));
    if input.action == "dispute" && input.path.Some? {
      assert ScheduledDispute(c, input.path.value);
    }
    OriginAttempt(c, m, input);
  }

  lemma OriginStated(c: Config, m: Machine, wit: Witness)
    requires InitVm(c).Returns? && OriginInv(c, m) && Loads(m, wit)
    ensures OriginInv(c, Attempt(Record(m, wit), InputOf(wit)))
  {
    hide Decide, Update;
    var i := FindProgram(m.programs, wit.tmpl.progId);
    assert m.programs[i] == CreateProgram(c.programs[i]) && c.programs[i] in c.programs;
    assert OriginInv(c, Record(m, wit));
    if wit.tmpl.action == "dispute" && wit.tmpl.path.Some? {
      if FindPath(m.paths, wit.tmpl.path.value) < |m.paths| {
        assert m.paths[FindPath(m.paths, wit.tmpl.path.value)].name in c.pathnames;
        DisputeHasResolver(c, c.programs[i], wit.tmpl.path.value);
        var p :| p in c.programs && Grants(CreateProgram(p), "resolve", wit.tmpl.path);
        assert Offers(p, "resolve", wit.tmpl.path.value);
        OriginAttempt(c, Record(m, wit), InputOf(wit));
      } else {
        MissingPath(Record(m, wit), InputOf(wit));
      }
    } else {
      OriginAttempt(c, Record(m, wit), InputOf(wit));
    }
  }

  lemma MissingPath(m: Machine, input: Input)
    requires input.action in PATH_ACTIONS && input.path.Some? && FindPath(m.paths, input.path.value) == |m.paths|
    ensures Attempt(m, input) == m
  {
  }

  lemma OriginEvent(c: Config, m: Machine, e: Event)
    requires InitVm(c).Returns? && OriginInv(c, m) && Legal(m, e)
    ensures OriginInv(c, Apply(m, e))
  {
    hide Attempt, TaskInputs, SomeOffers, ScheduledDispute, Decide;
    match e
    case SetError(_) =>
    case DropTask =>
    case Scheduled(input) => OriginScheduled(c, m, input);
    case Stated(wit) =>
      assert OriginInv(c, Record(m, wit));
      OriginStated(c, m, wit);
  }

  /** On every reachable machine a disputed path is one that some program can resolve, or one
      that a task of the schedule disputes. */
  lemma DisputeOrigin(c: Config, rs: seq<Request>, e: PathEntry)
    requires Run(c, rs).Returns? && e in Run(c, rs).value.paths && e.state.Disputed?
    ensures SomeOffers(c.programs, "resolve", e.name) || ScheduledDispute(c, e.name)
  {
    InitPathsShape(c.pathnames, c.programs);
    SortMembers(ByTimer, c.schedule);
    assert OriginInv(c, InitVm(c).value) by {
      var paths := InitVm(c).value.paths;
      forall x | x in paths ensures !x.state.Disputed? {
        var i :| 0 <= i < |paths| && paths[i] == x;
        InitPathNotSpent(c.pathnames[i], c.programs);
      }
    }
    forall m, e | OriginInv(c, m) && Legal(m, e) ensures OriginInv(c, Apply(m, e)) {
      OriginEvent(c, m, e);
    }
    RunInvariant(m => OriginInv(c, m), _ => true, c, rs);
  }

  lemma DisputeAccepted(m: Machine, i: nat, stamp: int)
    requires i < |m.paths| && FindPath(m.paths, m.paths[i].name) == i && !m.paths[i].state.Disputed?
    requires m.commitAt <= stamp < m.expiresAt
    ensures var input := Input("dispute", Some(m.paths[i].name), stamp, MachineId(m.vmid));
            Attempt(m, input).paths == m.paths[i := PathEntry(m.paths[i].name, PathState.Disputed)]
  {
  }

  lemma OneTaskRun(m: Machine, task: Task, stopAt: int)
    requires m.tasks == [task] && IsDue(m, task, stopAt)
    ensures RunSchedule(m, stopAt) == Shift(RunTask(m, task))
  {
    assert [task][1..] == [];
    var next := Shift(RunTask(m, task));
    assert Due(m, [task], stopAt) == [task] && RunDue(next, []) == next;
  }

  /** A task can dispute any path, at once. */
  lemma TaskDisputes(c: Config, i: nat)
    requires InitVm(c).Returns? && Distinct(c.pathnames) && i < |c.pathnames| && c.activeAt < c.expiresAt
    requires '|' !in c.pathnames[i] && c.pathnames[i] != "*"
    requires c.schedule == [Task(0, "dispute", c.pathnames[i])]
    ensures Run(c, [Advance(c.activeAt)]).Returns?
    ensures PathEntry(c.pathnames[i], PathState.Disputed) in Run(c, [Advance(c.activeAt)]).value.paths
  {
    hide RunTask, Update, RunSchedule, InitPaths;
    var (m, task, name) := (InitVm(c).value, Task(0, "dispute", c.pathnames[i]), c.pathnames[i]);
    InitPathsShape(c.pathnames, c.programs);
    InitPathNotSpent(name, c.programs);
    assert [task][1..] == [] && Sort(ByTimer, [task]) == [task];
    assert FindPath(m.paths, name) == i;
    SingleInput(m, task);
    DisputeAccepted(m, i, c.activeAt);
    OneTaskRun(m, task, c.activeAt);
    var n := RunSchedule(m, c.activeAt);
    assert n.paths[i] == PathEntry(name, PathState.Disputed) && n.paths[i] in n.paths;
    assert [Advance(c.activeAt)][1..] == [];
    assert ServeAll(m, [Advance(c.activeAt)]) == Returns(n);
  }

  /** So the check made at setup protects a path from every schedule exactly when some program
      resolves the path. */
  lemma ResolvableExactly(c: Config, i: nat)
    requires InitVm(c).Returns? && Distinct(c.pathnames) && i < |c.pathnames| && c.activeAt < c.expiresAt
    requires '|' !in c.pathnames[i] && c.pathnames[i] != "*"
    ensures (forall schedule, rs | Run(c.(schedule := schedule), rs).Returns?
               && PathEntry(c.pathnames[i], PathState.Disputed) in Run(c.(schedule := schedule), rs).value.paths ::
               SomeOffers(c.programs, "resolve", c.pathnames[i]))
       <==> SomeOffers(c.programs, "resolve", c.pathnames[i])
  {
    var d := c.(schedule := [Task(0, "dispute", c.pathnames[i])]);
    TaskDisputes(d, i);
    assert d == c.(schedule := d.schedule);
  }

  /* ---------- votes that were spent too early ---------- */

  /** A resolution approved while the machine is not in dispute is refused, and its votes stay. */
  lemma EarlyResolve(m: Machine, wit: Witness, threshold: int, members: seq<string>)
    requires StoreInv(m) && Loads(m, wit) && !m.status.Disputed?
    requires m.programs[FindProgram(m.programs, wit.tmpl.progId)].mthd == Endorse(threshold, members)
    requires wit.tmpl.action == "resolve" && wit.tmpl.path.Some? && FindPath(m.paths, wit.tmpl.path.value) < |m.paths|
    requires m.commitAt <= wit.tmpl.stamp < m.expiresAt
    requires Carries(m, wit, threshold, members)
    ensures RunProgram(m, wit) == (Record(m, wit), Err(NotDisputed))
    ensures StoreInv(Record(m, wit)) && |VotesFor(Record(m, wit), wit.tmpl)| >= threshold
  {
    hide Update, Record;
    var i := FindProgram(m.programs, wit.tmpl.progId);
    var ballots := m.store[FindStore(m.store, wit.tmpl.progId)].ballots;
    assert VotesFor(m, wit.tmpl) == Votes(ballots, VoteLabel(wit.tmpl.path, wit.tmpl.action));
    ApprovedExactly(threshold, members, ballots, VoteLabel(wit.tmpl.path, wit.tmpl.action), wit.sigs);
    RecordSound(m, wit);
    assert m.programs[i] in m.programs && wit.tmpl.progId == ProgId(m.programs[i].mthd);
    RecordFrame(m, wit);
    ResolveRefused(Record(m, wit), InputOf(wit));
  }

  lemma RecordFrame(m: Machine, wit: Witness)
    requires Loads(m, wit)
    ensures Record(m, wit) == m.(store := Record(m, wit).store)
  {
  }

  lemma ResolveRefused(m: Machine, input: Input)
    requires input.action == "resolve" && input.path.Some? && FindPath(m.paths, input.path.value) < |m.paths|
    requires m.commitAt <= input.stamp < m.expiresAt && !m.status.Disputed?
    ensures Update(m, input) == Err(NotDisputed)
  {
  }

  /** If that took every member, nobody is left to vote for it again. */
  lemma AllVoted(m: Machine, t: Template, members: seq<string>)
    requires StoreInv(m) && FindStore(m.store, t.progId) < |m.store|
    requires exists threshold :: t.progId == ProgId(Endorse(threshold, members))
    requires |VotesFor(m, t)| >= |set x | x in members|
    ensures Unvoted(members, VotesFor(m, t)) == {}
  {
    var entry := m.store[FindStore(m.store, t.progId)];
    var votes := VotesFor(m, t);
    assert entry in m.store && EntryOk(entry) && BallotsOk(entry.ballots, members);
    var name := VoteLabel(t.path, t.action);
    var b := FindBallot(entry.ballots, name);
    assert b < |entry.ballots| ==> entry.ballots[b] in entry.ballots;
    DistinctCount(votes);
    var (all, voted) := (set x | x in members, set x | x in votes);
    assert voted <= all;
    assert all == voted + (all - voted);
    assert |all| == |voted| + |all - voted|;
  }

  lemma {:induction false} DistinctCount(keys: seq<string>)
    requires Distinct(keys)
    ensures |set x | x in keys| == |keys|
  {
    if keys != [] {
      var rest := keys[1..];
      DistinctCount(rest);
      assert (set x | x in keys) == {keys[0]} + (set x | x in rest);
      assert keys[0] !in rest;
    }
  }

  lemma UncarriedProgram(m: Machine, wit: Witness, threshold: int, members: seq<string>)
    requires StoreInv(m) && wit.tmpl.progId == ProgId(Endorse(threshold, members))
    requires !Carries(m, wit, threshold, members)
    ensures RunProgram(m, wit).0 == m.(store := RunProgram(m, wit).0.store)
  {
    if Loads(m, wit) {
      var i := FindProgram(m.programs, wit.tmpl.progId);
      assert m.programs[i] in m.programs && m.programs[i].mthd == Endorse(threshold, members);
      var ballots := m.store[FindStore(m.store, wit.tmpl.progId)].ballots;
      var name := VoteLabel(wit.tmpl.path, wit.tmpl.action);
      assert VotesFor(m, wit.tmpl) == Votes(ballots, name);
      ApprovedExactly(threshold, members, ballots, name, wit.sigs);
    }
  }

  /** Once every member of an endorse program has voted for an action on a path, no statement
      through that program makes that commit any more, however the run goes on. */
  lemma LabelExhausted(
    c: Config, rs: seq<Request>, more: seq<Request>, wit: Witness, threshold: int, members: seq<string>)
    requires Run(c, rs).Returns? && AllStatements(rs, Honest)
    requires ServeAll(Run(c, rs).value, more).Returns? && AllStatements(more, Honest)
    requires wit.tmpl.progId == ProgId(Endorse(threshold, members))
    requires FindStore(Run(c, rs).value.store, wit.tmpl.progId) < |Run(c, rs).value.store|
    requires Unvoted(members, VotesFor(Run(c, rs).value, wit.tmpl)) == {}
    ensures var n := ServeAll(Run(c, rs).value, more).value;
            && !Carries(n, wit, threshold, members)
            && RunProgram(n, wit).0 == n.(store := RunProgram(n, wit).0.store)
  {
    var (m, n) := (Run(c, rs).value, ServeAll(Run(c, rs).value, more).value);
    VotesOnlyGrow(c, rs, more);
    FindStoreSame(m.store, n.store, wit.tmpl.progId);
    var k := FindStore(m.store, wit.tmpl.progId);
    var name := VoteLabel(wit.tmpl.path, wit.tmpl.action);
    assert Votes(m.store[k].ballots, name) <= Votes(n.store[k].ballots, name);
    assert Unvoted(members, VotesFor(n, wit.tmpl)) == {};
    CarriableExactly(n, wit, threshold, members);
    assert wit == wit.(sigs := wit.sigs);
    UncarriedProgram(n, wit, threshold, members);
  }

  /** A run continued by one more request. */
  lemma {:induction false} ServeSnoc(m: Machine, rs: seq<Request>, r: Request)
    requires ServeAll(m, rs).Returns?
    ensures ServeAll(m, rs + [r]) == Serve(ServeAll(m, rs).value, r)
    decreases |rs|
  {
    if rs == [] {
      assert [r][1..] == [] && rs + [r] == [r];
    } else {
      assert (rs + [r])[1..] == rs[1..] + [r];
      ServeSnoc(Serve(m, rs[0]).value, rs[1..], r);
    }
  }

  /** What a unanimous resolution amounts to when it comes before the dispute. */
  lemma EarlyUnanimity(c: Config, rs: seq<Request>, wit: Witness, threshold: int, members: seq<string>)
    requires Run(c, rs).Returns? && Run(c, rs).value.output.None? && AllStatements(rs, Honest)
    requires var ran := RunSchedule(Run(c, rs).value.(error := None), wit.tmpl.stamp);
             && !ran.closed && !ran.status.Disputed? && ran.commitAt <= wit.tmpl.stamp < ran.expiresAt
             && Loads(ran, wit) && Carries(ran, wit, threshold, members)
    requires wit.tmpl.progId == ProgId(Endorse(threshold, members)) && threshold >= |set x | x in members|
    requires wit.tmpl.action == "resolve" && wit.tmpl.path.Some? && wit.tmpl.path.value in c.pathnames
    ensures var n := Eval(Run(c, rs).value, [wit]);
            && n.Returns? && n.value.error == Some(NotDisputed)
            && FindStore(n.value.store, wit.tmpl.progId) < |n.value.store|
            && Unvoted(members, VotesFor(n.value, wit.tmpl)) == {}
  {
    hide RunSchedule, Loads, Carries, RunProgram, Record, Update;
    var m := Run(c, rs).value;
    var (clean, stop) := (m.(error := None), wit.tmpl.stamp);
    var ran := RunSchedule(clean, stop);
    VotesAreSound(c, rs);
    ShapedRun(c, rs);
    assert Shaped(c, clean);
    ShapedSchedule(c, clean, stop);
    ScheduleKeepsStore(clean, stop);
    EvalOne(m, wit);
    LoadedProgram(ran, wit, threshold, members);
    EarlyResolve(ran, wit, threshold, members);
    AllVoted(Record(ran, wit), wit.tmpl, members);
  }

  lemma LoadedProgram(m: Machine, wit: Witness, threshold: int, members: seq<string>)
    requires StoreInv(m) && Loads(m, wit) && wit.tmpl.progId == ProgId(Endorse(threshold, members))
    ensures FindProgram(m.programs, wit.tmpl.progId) < |m.programs|
    ensures m.programs[FindProgram(m.programs, wit.tmpl.progId)].mthd == Endorse(threshold, members)
    ensures FindStore(Record(m, wit).store, wit.tmpl.progId) < |Record(m, wit).store|
  {
    var i := FindProgram(m.programs, wit.tmpl.progId);
    assert m.programs[i] in m.programs;
    RecordSound(m, wit);
    FindStoreSame(m.store, Record(m, wit).store, wit.tmpl.progId);
  }

  lemma ScheduleKeepsStore(m: Machine, stopAt: int)
    requires StoreInv(m) && m.output.None?
    ensures StoreInv(RunSchedule(m, stopAt))
  {
    var es := ScheduleTrace(m, stopAt);
    forall n: Machine, e: Event | StoreInv(n) && Legal(n, e) && (e.Stated? ==> Nobody(e.wit))
      ensures StoreInv(Apply(n, e))
    {
      if e.Scheduled? {
        AttemptFrame(n, e.input);
      }
    }
    TraceInvariant(n => StoreInv(n), Nobody, m, es, RunSchedule(m, stopAt));
  }

  predicate Nobody(wit: Witness) {
    false
  }

  /** After it, no statement through that program ever resolves the path: whatever is asked of
      the machine, and whether or not the path is disputed later. */
  lemma NeverResolved(
    c: Config, rs: seq<Request>, wit: Witness, more: seq<Request>, later: Witness, threshold: int, members: seq<string>)
    requires Run(c, rs).Returns? && Run(c, rs).value.output.None? && AllStatements(rs, Honest)
    requires var ran := RunSchedule(Run(c, rs).value.(error := None), wit.tmpl.stamp);
             && !ran.closed && !ran.status.Disputed? && ran.commitAt <= wit.tmpl.stamp < ran.expiresAt
             && Loads(ran, wit) && Carries(ran, wit, threshold, members)
    requires wit.tmpl.progId == ProgId(Endorse(threshold, members)) && threshold >= |set x | x in members|
    requires wit.tmpl.action == "resolve" && wit.tmpl.path.Some? && wit.tmpl.path.value in c.pathnames && Honest(wit)
    requires later.tmpl.progId == wit.tmpl.progId && later.tmpl.action == "resolve" && later.tmpl.path == wit.tmpl.path
    requires Run(c, rs + [Evaluate([wit])] + more).Returns? && AllStatements(more, Honest)
    ensures var n := Run(c, rs + [Evaluate([wit])] + more).value;
            && !Carries(n, later, threshold, members)
            && RunProgram(n, later).0 == n.(store := RunProgram(n, later).0.store)
  {
    hide RunSchedule, Loads, Carries, RunProgram, Eval;
    var all := rs + [Evaluate([wit])];
    EarlyUnanimity(c, rs, wit, threshold, members);
    ServeSnoc(InitVm(c).value, rs, Evaluate([wit]));
    ServeSplit(InitVm(c).value, all, more);
    assert VotesFor(Run(c, all).value, later.tmpl) == VotesFor(Run(c, all).value, wit.tmpl);
    assert AllStatements(all, Honest);
    LabelExhausted(c, all, more, later, threshold, members);
  }

  lemma {:induction false} ServeSplit(m: Machine, rs: seq<Request>, more: seq<Request>)
    requires ServeAll(m, rs).Returns?
    ensures ServeAll(m, rs + more) == ServeAll(ServeAll(m, rs).value, more)
    decreases |rs|
  {
    if rs == [] {
      assert rs + more == more;
    } else {
      assert (rs + more)[1..] == rs[1..] + more;
      ServeSplit(Serve(m, rs[0]).value, rs[1..], more);
    }
  }

  /* ---------- a dead end ---------- */

  const EARLY := SoloStatement("resolve", Some("payout"), START + 1)
  const DISPUTE := SoloStatement("dispute", Some("payout"), START + 2)

  /** The path is in dispute, and the only member of its only program has voted to resolve it. */
  lemma DeadEnd()
    ensures var m := Run(SoloProposal(["payout"], []), [Evaluate([EARLY]), Evaluate([DISPUTE])]);
            && m.Returns? && !m.value.closed && m.value.error.None?
            && m.value.paths == [PathEntry("payout", PathState.Disputed)]
            && Unvoted([ALICE], VotesFor(m.value, EARLY.tmpl)) == {}
  {
    hide EvalStep, Eval, Sort, InitVm, VotesFor, Unvoted;
    OneLockedStart();
    var (m, rs) := (InitVm(SoloProposal(["payout"], [])).value, [Evaluate([EARLY]), Evaluate([DISPUTE])]);
    EarlyStep(m);
    var b := SoloRecorded(m, "resolve", Some("payout"));
    EvalOne(m, EARLY);
    EvalOne(b.(error := Some(NotDisputed)), DISPUTE);
    DisputeStep(m, b);
    assert m.(error := None) == m && b.(error := Some(NotDisputed)).(error := None) == b;
    assert rs[1..] == [Evaluate([DISPUTE])] && rs[1..][1..] == [];
    var n := Eval(b.(error := Some(NotDisputed)), [DISPUTE]);
    assert ServeAll(b.(error := Some(NotDisputed)), rs[1..]) == n;
  }

  lemma EarlyStep(m: Machine)
    requires OneLocked(m)
    ensures EvalStep(m, EARLY) == Returns(SoloRecorded(m, "resolve", Some("payout")).(error := Some(NotDisputed)))
  {
    hide EvalStep;
    assert RunSchedule(m, START + 1) == m;
    SoloStep(m, m, "resolve", Some("payout"), START + 1);
    assert FindPath(m.paths, "payout") == 0;
  }

  lemma DisputeStep(m: Machine, b: Machine)
    requires OneLocked(m) && b == SoloRecorded(m, "resolve", Some("payout"))
    ensures var n := EvalStep(b, DISPUTE);
            && n.Returns? && !n.value.closed && n.value.error.None?
            && n.value.paths == [PathEntry("payout", PathState.Disputed)]
            && Unvoted([ALICE], VotesFor(n.value, EARLY.tmpl)) == {}
  {
    hide EvalStep;
    assert VoteLabel(Some("payout"), "resolve") == "payout/resolve";
    assert VoteLabel(Some("payout"), "dispute") == "payout/dispute";
    assert "payout/resolve"[7] != "payout/dispute"[7];
    assert b.store[0].ballots == [Ballot("payout/resolve", [ALICE])];
    assert RunSchedule(b, START + 2) == b;
    SoloStep(b, b, "dispute", Some("payout"), START + 2);
    assert FindPath(b.paths, "payout") == 0;
    var n := EvalStep(b, DISPUTE).value;
    assert FindBallot(n.store[0].ballots, "payout/resolve") == 0 && FindStore(n.store, ProgId(SOLO)) == 0;
    assert VotesFor(n, EARLY.tmpl) == [ALICE];
  }
}
