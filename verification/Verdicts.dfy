/** What the session verifier says of a machine that somebody else ran. */
module Verdicts {
  import opened Basics
  import opened Cvm
  import opened Traces
  import opened Ballots
  import opened Guards
  import opened History
  import opened Replays

  /** One request per statement. */
  function Requests(stack: seq<Witness>): seq<Request> {
    if stack == [] then [] else [Evaluate([stack[0]])] + Requests(stack[1..])
  }

  lemma {:induction false} ReplayIsRun(m: Machine, stack: seq<Witness>)
    ensures Replay(m, stack) == ServeAll(m, Requests(stack))
    decreases |stack|
  {
    if stack != [] {
      assert Requests(stack)[1..] == Requests(stack[1..]);
      if Eval(m, [stack[0]]).Returns? {
        ReplayIsRun(Eval(m, [stack[0]]).value, stack[1..]);
      }
    }
  }

  lemma {:induction false} HonestRequests(stack: seq<Witness>)
    requires forall w | w in stack :: Honest(w)
    ensures AllStatements(Requests(stack), Honest)
  {
    if stack != [] {
      HonestRequests(stack[1..]);
    }
  }

  /** Which foreign machine passes, exactly. A machine that any other run of the same proposal
      reached, with whatever statements and advances, agrees with the verifier's own replay if and
      only if their heads are equal: another output, status or closing time shows in the head. */
  lemma ForeignExactly(c: Config, stack: seq<Witness>, rs: seq<Request>)
    requires InitVm(c).Returns? && Replay(InitVm(c).value, stack).Returns? && forall w | w in stack :: Honest(w)
    requires Run(c, rs).Returns? && AllStatements(rs, Honest)
    requires forall t | t in c.schedule :: t.timer >= 0
    ensures var (replay, foreign) := (Replay(InitVm(c).value, stack).value, Run(c, rs).value);
            Agree(replay, foreign) <==> replay.head == foreign.head
  {
    var own := Requests(stack);
    ReplayIsRun(InitVm(c).value, stack);
    HonestRequests(stack);
    ShapedRun(c, own);
    ShapedRun(c, rs);
    if Run(c, own).value.head == Run(c, rs).value.head {
      HeadFixesHistory(c, own, rs);
    }
  }
}
