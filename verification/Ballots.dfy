/** The vote store over whole runs: what it holds, that it only grows, and that every
    commit made through an endorse program is backed by it. */
module Ballots {
  import opened Basics
  import opened Cvm
  import opened Traces

  /* ---------- one vote ---------- */

  lemma {:induction false} FindBallotIs(ballots: seq<Ballot>, name: string, i: nat)
    requires i <= |ballots| && (i < |ballots| ==> ballots[i].name == name)
    requires forall j | 0 <= j < i :: ballots[j].name != name
    ensures FindBallot(ballots, name) == i
  {
    if i > 0 {
      FindBallotIs(ballots[1..], name, i - 1);
    }
  }

  /** A recorded vote is added to its own label and to no other. */
  lemma RecordedVote(ballots: seq<Ballot>, name: string, pub: string, other: string)
    requires RecordEntry(ballots, name, pub).Ok?
    ensures var next := RecordEntry(ballots, name, pub).value;
            && pub !in Votes(ballots, name)
            && Votes(next, other) == if other == name then Votes(ballots, name) + [pub] else Votes(ballots, other)
  {
    var next := RecordEntry(ballots, name, pub).value;
    var i, j := FindBallot(ballots, name), FindBallot(ballots, other);
    if other == name {
      FindBallotIs(next, name, i);
    } else if j < |ballots| {
      FindBallotIs(next, other, j);
    } else {
      FindBallotIs(next, other, |next|);
    }
  }

  /** Unique labels, each with a non-empty, duplicate-free list of members. */
  predicate BallotsOk(ballots: seq<Ballot>, members: seq<string>) {
    && (forall i, j | 0 <= i < j < |ballots| :: ballots[i].name != ballots[j].name)
    && (forall b | b in ballots :: b.keys != [] && Distinct(b.keys) && forall k | k in b.keys :: k in members)
  }

  lemma RecordedOk(ballots: seq<Ballot>, members: seq<string>, name: string, pub: string)
    requires BallotsOk(ballots, members) && pub in members
    requires RecordEntry(ballots, name, pub).Ok?
    ensures BallotsOk(RecordEntry(ballots, name, pub).value, members)
  {
    var i := FindBallot(ballots, name);
    var next := RecordEntry(ballots, name, pub).value;
    forall b | b in next && b !in ballots
      ensures b.keys != [] && Distinct(b.keys) && forall k | k in b.keys :: k in members
    {
      if i < |ballots| {
        assert ballots[i] in ballots && b.keys == ballots[i].keys + [pub];
      } else {
        assert b.keys == [pub];
      }
    }
  }

  /** Every label keeps the votes it had, in order. */
  ghost predicate Grown(was: seq<Ballot>, now: seq<Ballot>) {
    forall name :: Votes(was, name) <= Votes(now, name)
  }

  /** Running the endorse method keeps the ballots sound and only adds to them; when it
      approves, the label holds at least the threshold. */
  lemma {:induction false} EndorseSound(
    threshold: int, members: seq<string>, ballots: seq<Ballot>, name: string, sigs: seq<Proof>)
    requires BallotsOk(ballots, members)
    ensures var (next, verdict) := ExecEndorse(threshold, members, ballots, name, sigs);
            && BallotsOk(next, members)
            && Grown(ballots, next)
            && (verdict.Yes? ==> |Votes(next, name)| >= threshold)
    decreases |sigs|
  {
    if sigs != [] && sigs[0].pub in members {
      var pub := sigs[0].pub;
      var recorded := RecordEntry(ballots, name, pub);
      if recorded.Ok? {
        RecordedOk(ballots, members, name, pub);
        forall other ensures Votes(ballots, other) <= Votes(recorded.value, other) {
          RecordedVote(ballots, name, pub, other);
        }
        EndorseSound(threshold, members, recorded.value, name, sigs[1..]);
        var last := ExecEndorse(threshold, members, recorded.value, name, sigs[1..]).0;
        forall other ensures Votes(ballots, other) <= Votes(last, other) {
          assert Votes(ballots, other) <= Votes(recorded.value, other) <= Votes(last, other);
        }
      }
    }
  }

  /** The first `k` signatures come from different members who have not voted yet. */
  predicate NewVoters(members: seq<string>, voted: seq<string>, sigs: seq<Proof>, k: nat)
    requires k <= |sigs|
  {
    && (forall i | 0 <= i < k :: sigs[i].pub in members && sigs[i].pub !in voted)
    && (forall i, j | 0 <= i < j < k :: sigs[i].pub != sigs[j].pub)
  }

  /** When a statement is approved, exactly: some opening run of its signatures are first-time
      votes of different members and lifts the count under its label to the threshold. */
  lemma {:induction false} ApprovedExactly(
    threshold: int, members: seq<string>, ballots: seq<Ballot>, name: string, sigs: seq<Proof>)
    ensures ExecEndorse(threshold, members, ballots, name, sigs).1.Yes?
       <==> exists k | 1 <= k <= |sigs| ::
              NewVoters(members, Votes(ballots, name), sigs, k) && |Votes(ballots, name)| + k >= threshold
    decreases |sigs|
  {
    var voted := Votes(ballots, name);
    if sigs != [] && sigs[0].pub in members && RecordEntry(ballots, name, sigs[0].pub).Ok? {
      var pub := sigs[0].pub;
      var next := RecordEntry(ballots, name, pub).value;
      RecordedVote(ballots, name, pub, name);
      assert Votes(next, name) == voted + [pub];
      if |voted| + 1 >= threshold {
        assert NewVoters(members, voted, sigs, 1);
      } else {
        ApprovedExactly(threshold, members, next, name, sigs[1..]);
        forall k | 2 <= k <= |sigs|
          ensures NewVoters(members, voted, sigs, k) <==> NewVoters(members, voted + [pub], sigs[1..], k - 1)
        {
          NewVotersTail(members, voted, sigs, k);
        }
        if k :| 1 <= k <= |sigs| && NewVoters(members, voted, sigs, k) && |voted| + k >= threshold {
          assert k >= 2 && NewVoters(members, voted + [pub], sigs[1..], k - 1);
        }
        var more := voted + [pub];
        if j :| 1 <= j <= |sigs[1..]| && NewVoters(members, more, sigs[1..], j) && |more| + j >= threshold {
          assert NewVoters(members, voted, sigs, j + 1);
        }
      }
    }
  }

  lemma NewVotersTail(members: seq<string>, voted: seq<string>, sigs: seq<Proof>, k: nat)
    requires 2 <= k <= |sigs| && sigs[0].pub in members && sigs[0].pub !in voted
    ensures NewVoters(members, voted, sigs, k)
       <==> NewVoters(members, voted + [sigs[0].pub], sigs[1..], k - 1)
  {
    var tail := sigs[1..];
    assert forall i | 1 <= i < k :: sigs[i] == tail[i - 1];
    if NewVoters(members, voted + [sigs[0].pub], tail, k - 1) {
      forall i, j | 0 <= i < j < k ensures sigs[i].pub != sigs[j].pub {
        assert tail[j - 1].pub !in voted + [sigs[0].pub];
        if i > 0 {
          assert tail[i - 1].pub != tail[j - 1].pub;
        }
      }
    }
  }

  /* ---------- labels ---------- */

  lemma {:induction false} SlashSplits(x: string, a: string, y: string, b: string)
    requires '/' !in x && '/' !in y && x + "/" + a == y + "/" + b
    ensures x == y && a == b
  {
    var text := x + "/" + a;
    assert text[|x|] == '/' && text[|y|] == '/';
    assert forall i | 0 <= i < |x| :: text[i] == x[i] && x[i] in x;
    assert forall i | 0 <= i < |y| :: text[i] == y[i] && y[i] in y;
    assert |x| == |y|;
    assert text[..|x|] == x && text[..|x|] == y;
    assert text[|x| + 1..] == a && text[|x| + 1..] == b;
  }

  /** Different (path, action) pairs never share a vote label. Path names hold no slash, and
      the machine refuses a path named "null". */
  lemma LabelsDiffer(p: Option<string>, a: string, q: Option<string>, b: string)
    requires p.Some? ==> '/' !in p.value && p.value != "null"
    requires q.Some? ==> '/' !in q.value && q.value != "null"
    requires VoteLabel(p, a) == VoteLabel(q, b)
    ensures p == q && a == b
  {
    SlashSplits(OutputText(p), a, OutputText(q), b);
  }

  /* ---------- whole runs ---------- */

  predicate EntryOk(e: StoreEntry) {
    match e.progId.mthd
    case Endorse(_, members) => BallotsOk(e.ballots, members)
    case _ => e.ballots == []
  }

  predicate StoreInv(m: Machine) {
    && |m.store| == |m.programs|
    && (forall i | 0 <= i < |m.store| :: m.store[i].progId == m.programs[i].progId)
    && (forall p | p in m.programs :: p.progId == ProgId(p.mthd))
    && (forall e | e in m.store :: EntryOk(e))
  }

  ghost predicate StoreGrown(was: seq<StoreEntry>, now: seq<StoreEntry>) {
    && |now| == |was|
    && forall i | 0 <= i < |was| :: now[i].progId == was[i].progId && Grown(was[i].ballots, now[i].ballots)
  }

  /** The votes on record for a statement's program, path and action. */
  function VotesFor(m: Machine, t: Template): seq<string> {
    var i := FindStore(m.store, t.progId);
    if i == |m.store| then [] else Votes(m.store[i].ballots, VoteLabel(t.path, t.action))
  }

  /** A commit by a statement of an endorse program has at least its threshold of votes on record. */
  predicate LinkBacked(m: Machine, wid: Wid) {
    wid.StatementId? && wid.tmpl.progId.mthd.Endorse? ==>
      |VotesFor(m, wid.tmpl)| >= wid.tmpl.progId.mthd.threshold
  }

  predicate HeadBacked(m: Machine, h: Head)
    decreases h
  {
    h.Link? ==> LinkBacked(m, h.wid) && HeadBacked(m, h.prev)
  }

  predicate VoteInv(m: Machine) {
    StoreInv(m) && HeadBacked(m, m.head)
  }

  lemma {:induction false} FindStoreSame(was: seq<StoreEntry>, now: seq<StoreEntry>, id: ProgId)
    requires |now| == |was| && forall i | 0 <= i < |was| :: now[i].progId == was[i].progId
    ensures FindStore(now, id) == FindStore(was, id)
  {
    if was != [] {
      FindStoreSame(was[1..], now[1..], id);
    }
  }

  lemma {:induction false} BackedGrows(m: Machine, n: Machine, h: Head)
    requires HeadBacked(m, h) && StoreGrown(m.store, n.store)
    ensures HeadBacked(n, h)
    decreases h
  {
    if h.Link? {
      if h.wid.StatementId? {
        FindStoreSame(m.store, n.store, h.wid.tmpl.progId);
        var i := FindStore(m.store, h.wid.tmpl.progId);
        var name := VoteLabel(h.wid.tmpl.path, h.wid.tmpl.action);
        if i < |m.store| {
          assert Votes(m.store[i].ballots, name) <= Votes(n.store[i].ballots, name);
        }
      }
      BackedGrows(m, n, h.prev);
    }
  }

  /** Recording a statement's votes keeps the store sound; if its endorse program approves,
      the statement is backed. */
  lemma RecordSound(m: Machine, wit: Witness)
    requires StoreInv(m) && Loads(m, wit)
    ensures var n := Record(m, wit);
            && StoreInv(n) && StoreGrown(m.store, n.store)
            && (Decide(m, wit).1.Yes? ==> LinkBacked(n, StatementId(wit.tmpl)))
  {
    var id := wit.tmpl.progId;
    var i, k := FindProgram(m.programs, id), FindStore(m.store, id);
    var n := Record(m, wit);
    assert m.programs[i] in m.programs && m.store[k] in m.store && EntryOk(m.store[k]);
    assert id == ProgId(m.programs[i].mthd);
    if m.programs[i].mthd.Endorse? {
      var Endorse(threshold, members) := m.programs[i].mthd;
      EndorseSound(threshold, members, m.store[k].ballots, VoteLabel(wit.tmpl.path, wit.tmpl.action), wit.sigs);
    }
    assert EntryOk(n.store[k]);
    forall e | e in n.store ensures EntryOk(e) {
      var j :| 0 <= j < |n.store| && n.store[j] == e;
      assert j != k ==> m.store[j] in m.store;
    }
    FindStoreSame(m.store, n.store, id);
  }

  lemma AttemptHead(m: Machine, input: Input)
    ensures Attempt(m, input).store == m.store
    ensures var h := Attempt(m, input).head;
            h == m.head || (h.Link? && h.prev == m.head && h.wid == input.wid)
  {
  }

  predicate Honest(wit: Witness) {
    wit.wid == StatementId(wit.tmpl)
  }

  lemma VoteEvent(m: Machine, e: Event)
    requires VoteInv(m) && Legal(m, e) && (e.Stated? ==> Honest(e.wit))
    ensures VoteInv(Apply(m, e)) && StoreGrown(m.store, Apply(m, e).store)
  {
    assert StoreGrown(m.store, m.store);
    match e
    case SetError(_) => BackedGrows(m, Apply(m, e), m.head);
    case DropTask => BackedGrows(m, Apply(m, e), m.head);
    case Scheduled(input) =>
      AttemptHead(m, input);
      AttemptFrame(m, input);
      BackedGrows(m, Apply(m, e), m.head);
    case Stated(wit) =>
      var n := Record(m, wit);
      RecordSound(m, wit);
      BackedGrows(m, n, m.head);
      if Decide(m, wit).1.Yes? {
        AttemptHead(n, InputOf(wit));
        AttemptFrame(n, InputOf(wit));
        BackedGrows(n, Apply(m, e), m.head);
        FindStoreSame(n.store, Apply(m, e).store, wit.tmpl.progId);
      }
  }

  /** Votes are sound over whole runs: in every store labels are unique and keys are
      different members of that program; and every commit in the machine's history that a
      statement made through an endorse program has at least its threshold of them on record. */
  lemma VotesAreSound(c: Config, rs: seq<Request>)
    requires Run(c, rs).Returns? && AllStatements(rs, Honest)
    ensures StoreInv(Run(c, rs).value)
    ensures HeadBacked(Run(c, rs).value, Run(c, rs).value.head)
  {
    forall m, e | VoteInv(m) && Legal(m, e) && (e.Stated? ==> Honest(e.wit)) ensures VoteInv(Apply(m, e)) {
      VoteEvent(m, e);
    }
    RunInvariant(m => VoteInv(m), Honest, c, rs);
  }

  lemma StoreGrownTrans(a: seq<StoreEntry>, b: seq<StoreEntry>, c: seq<StoreEntry>)
    requires StoreGrown(a, b) && StoreGrown(b, c)
    ensures StoreGrown(a, c)
  {
    forall i | 0 <= i < |a| ensures Grown(a[i].ballots, c[i].ballots) {
      forall name ensures Votes(a[i].ballots, name) <= Votes(c[i].ballots, name) {
        assert Votes(a[i].ballots, name) <= Votes(b[i].ballots, name) <= Votes(c[i].ballots, name);
      }
    }
  }

  /** However a run is continued, no vote is ever lost or reordered. */
  lemma VotesOnlyGrow(c: Config, rs: seq<Request>, more: seq<Request>)
    requires Run(c, rs).Returns? && AllStatements(rs, Honest)
    requires ServeAll(Run(c, rs).value, more).Returns? && AllStatements(more, Honest)
    ensures StoreGrown(Run(c, rs).value.store, ServeAll(Run(c, rs).value, more).value.store)
    ensures StoreInv(ServeAll(Run(c, rs).value, more).value)
  {
    VotesAreSound(c, rs);
    var start := Run(c, rs).value;
    var inv := (m: Machine) => VoteInv(m) && StoreGrown(start.store, m.store);
    forall m, e | inv(m) && Legal(m, e) && (e.Stated? ==> Honest(e.wit)) ensures inv(Apply(m, e)) {
      VoteEvent(m, e);
      StoreGrownTrans(start.store, m.store, Apply(m, e).store);
    }
    var es := ServeAllTrace(start, more, Honest);
    TraceInvariant(inv, Honest, start, es, ServeAll(start, more).value);
  }
}
