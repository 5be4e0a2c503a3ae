# Contracts that run on a small virtual machine: model and proofs

An escrow contract names spending paths, programs that may act on them, and a schedule of timed
tasks. Signed statements and due tasks drive a small virtual machine (the CVM) until one path
becomes its output. A contract and its deposits collect notarised signatures as they move through
their life cycles, and a settlement pays the outputs of the chosen path. Before any of this, members
join a draft session, which keeps an index of the programs they will sign for.

## How the model is built

* `Cvm.dfy` gives the meaning of the machine as functions on a `Machine` value. `Vm.dfy` has the
  machine in the code's own form, a class whose methods update its fields, and proves each method
  equal to its function. `Drafts.DraftSession` and the methods of `Funding` and `Settlements` do the
  same for their parts.
* Results have three outcomes: `Ok`, `Err` with the machine's own error type, and `Fault` for every
  other throw. At the entry points these become `Returns` and `Throws`.
* `Traces.dfy` gives the single events of a sequence of requests (evaluate a stack of statements,
  advance the clock): the inputs the schedule tries, the tasks it drops, the statements that reach
  their program. An invariant of events holds after every run, and whole-run theorems rest on it.
* `Acceptance.dfy`, `Tallies.dfy`, `Tasks.dfy` and `Provenance.dfy` say from outside what the functions
  of `Cvm.dfy` do: when a statement commits, which votes it leaves, what a task tries, and where every
  commit and vote on record comes from. `Endings.dfy` follows an output to whom the settlement pays.
* `Advances.dfy`, `Disputes.dfy` and `Forks.dfy` hold what is only sometimes true, with the exact
  condition or with a concrete run that breaks it. Concrete runs use `Samples.dfy`, a proposal with
  one member whose signature approves anything, and stamps and hashes that the schemas admit.
* Digests (statement ids, program ids, the hash chain, signed notes) are injective constructors with
  disjoint ranges. Signature checking is an abstract predicate. Time is a parameter.
* `Sorting.dfy` is the stable sort that `Array.sort` is specified to be.

## Where the code and its documentation differ

The model follows the code.

* `regex` tests for a substring, `get_access_list` for equality. They agree on the valid actions
  (`Disputes.ActionsReadExactly`), but `unlock` is none of these, and a program that grants `lock`
  passes the test for it. So a path starts locked exactly when some program on it grants `lock`
  (`Disputes.StartsLockedExactly`), and is then spent only out of a dispute.
* The list of path actions says `release`, the dispatcher says `unlock`; no accepted input ever
  undoes a lock.
* A run stops on `output`, not on `closed`. After a `close` without a path, tasks go on, and a lock
  they make sets the output although nothing was spent (`Outcomes.LockedOutput`).
* `check_schedule` accepts negative timers. A task with one is never due, stays at the head of the
  queue, and makes the task behind it run again (`Advances.StaleTaskRepeats`). With three of them,
  two runs can even end in different outputs under equal heads (`Forks.EqualHeadsFork`).
* The setup of a machine checks that programs which dispute a path come with programs that resolve
  it; it does not look at tasks, and a task may dispute a path nobody can resolve
  (`Disputes.ResolvableExactly`).
* Votes stay on record when the action they approve is refused. A unanimous resolution that comes
  before the dispute is refused, and can never be given again (`Disputes.NeverResolved`,
  `Disputes.DeadEnd`).
* An error ends an evaluation but not a replay of the same statements, so the session verifier
  accepts a stack with a failing statement exactly when nothing behind it commits
  (`Replays.ComparedExactly`).
* The canceled view of a contract keeps the cancel signature, so that stage never verifies
  (`Contracts.CanceledNeverVerifies`).
* `spend_deposit` accepts a closed deposit, whose close signature is then void
  (`Deposits.SpendKeepsSignatures`).
* `tabulate_funds` divides a fee by a size, under swapped names; the quotient is the fee rate.
* A role that lists a template twice leaves a key in the table after its member has left
  (`Drafts.KeyLeftBehind`).

## Model

| member | source | states |
|---|---|---|
| Labels.AccessListWithinRegex | src/util/base.ts:29-56 | every label the exact reading of a pattern grants, the substring reading grants too |
| Labels.ReadingsAgreeExactly | src/util/base.ts:29-56 | on every pattern of listed labels both readings agree, if and only if no label of the list occurs inside a different one |
| Labels.LockGrantsUnlock | src/util/base.ts:29-38 | every pattern that grants `lock` also passes the test for `unlock`, which the exact reading denies |
| Labels.SplitJoins | src/util/base.ts:29-56 | splitting cuts at every bar: the parts hold none, and joined by bars they are the pattern again |
| Labels.JoinSplits | src/util/base.ts:40-56 | and it finds the parts of every pattern put together so |
| Sorting.SortIsStable | src/cvm/util/base.ts:33-38 | elements that compare equal keep their order, so statements with one stamp and tasks with one timer run in the order given |
| Sorting.SortSorts | src/cvm/lib/schedule.ts:8-13 | the sorted list is in order for every pair of indices, for any total preorder |
| Sorting.SortMembers | src/cvm/lib/schedule.ts:8-13 | sorting loses and adds nothing |
| Vm.CVMData.Revive | src/cvm/util/parse.ts:19-28 | the working copy starts equal to the caller's data |
| Vm.CVMData.UpdateVmState | src/cvm/lib/state.ts:32-62 | the commit step on the fields, with its error, its fault and its unchanged state on both, is the function the theorems are about |
| Vm.CVMData.Commit | src/cvm/lib/state.ts:53-61 | step, clock, chain and closing are the ones the theorems are about, the chain hashing the output as it was before the commit |
| Vm.CVMData.RunTask | src/cvm/lib/schedule.ts:35-68 | the nested loops try the inputs of a task in order, swallow every rejection and stop at the first output |
| Vm.CVMData.RunPaths | src/cvm/lib/schedule.ts:50-58 | the loop over the paths is the opening stretch of the task's inputs, and stops the whole task exactly when an input produced the output |
| Vm.CVMData.RunSchedule | src/cvm/lib/schedule.ts:15-30 | walking the due tasks while shifting the queue they came from is the recursive run of the due tasks |
| Vm.CVMData.ExecEndorse | src/cvm/lib/methods/endorse.ts:9-36 | the loop that writes votes into the store leaves the ballots and the verdict of the voting function, also when it stops at a bad signature |
| Vm.CVMData.RecordEntry | src/cvm/lib/methods/endorse.ts:65-103 | writes one vote, returns the new count, and leaves the store as it was when the key has voted |
| Vm.CVMData.RunProgram | src/cvm/lib/program.ts:47-108 | loading, the method and the commit together: state and outcome |
| Vm.GetStatements | src/cvm/util/base.ts:33-38 | the caller's array is left in stable stamp order |
| Vm.EvalWitness | src/cvm/lib/main.ts:42-78 | the loop with its early returns, error field and rethrown faults; the caller's array is sorted only if the machine had no output |
| Vm.EvalStatement | src/cvm/lib/main.ts:50-77 | one turn of that loop |
| Vm.EvalSchedule | src/cvm/lib/main.ts:83-95 | advancing without a statement |
| Vm.InitPathState | src/cvm/lib/path.ts:30-56 | the accumulated terms and start state over all programs, and the throw on a dispute without a resolver |
| Vm.InitVmState | src/cvm/lib/state.ts:20-30 | one entry per path name in order, or a throw |
| Traces.ServeAllTrace | src/cvm/lib/main.ts:42-95 | every sequence of requests is the sequence of its events, each legal where it happens: every input the schedule tries comes from a task still in the queue |
| Traces.RunInvariant | src/cvm/lib/main.ts:42-126 | what holds at the start and survives every event holds after every run |
| Outcomes.Accepted | src/cvm/lib/action.ts:5-63 | an accepted input is a close, or moves exactly the named path along an allowed move and changes no other; no move leads to open |
| Acceptance.AcceptedExactly | src/cvm/lib/action.ts:5-63 | an input is accepted if and only if it is in time and a close, or names a path whose state allows it: spend and lock from open or spent, dispute from anything but disputed, resolve under status disputed |
| Acceptance.AcceptedEffect | src/cvm/lib/state.ts:32-62 | the path it leaves in the target state and no other path changed, the status, and closing, closing time and output exactly when the status is then closed or spent |
| Acceptance.RefusedExactly | src/cvm/lib/action.ts:26-63 | which of the errors every other input gets, and that exactly the inputs in time that are no action, or name no path, throw |
| Acceptance.CommitsExactly | src/cvm/lib/main.ts:50-77 | on every reachable machine without an output a statement commits if and only if, after the due tasks, the machine is open and the stamp in time, the program found under its id lists its action and path and approves it, and the state allows its action |
| Acceptance.ApprovedAccepted | src/cvm/lib/program.ts:47-56 | of the statements their program approves, those of no valid action throw and exactly those the state allows commit |
| Acceptance.SpendBecomesOutput | src/cvm/lib/action.ts:56-63 | on every reachable open machine a timely, approved spend of an open path makes it the output and closes the machine at its stamp, unless a due task commits first |
| Outcomes.OutputMeansSpent | src/cvm/lib/state.ts:41-61 | on every run the output is the one spent path and status is spent, if and only if it is not the case that an output was set on status `closed`; and `closed_at` is the commit clock |
| Outcomes.OneOutcomeStep | src/cvm/lib/schedule.ts:50-54 | the branch that breaks it: a lock accepted on status `closed`, and no other |
| Outcomes.LockedOutput | src/cvm/lib/schedule.ts:28 | a concrete proposal and run whose output was never spent |
| Outcomes.OutputIsFinal | src/cvm/lib/main.ts:42-95 | once there is an output, no sequence of requests changes any field |
| Outcomes.PathsOnlyRise | src/cvm/lib/action.ts:5-63 | however a run goes on, no path falls in open, locked, disputed, spent |
| Outcomes.RiseAttempt | src/cvm/lib/state.ts:43-53 | every commit that does not close the machine strictly raises the sum of path ranks |
| Outcomes.BoundedCommits | src/cvm/lib/state.ts:32-62 | among the run's own events, at most 2n + 1 commits with n paths up to and including the first that closes the machine, 2n while open; and the machine that commit leaves has one outcome |
| Schedules.DuePrefix | src/cvm/lib/schedule.ts:74-83 | in an ordered queue with no stale task the due tasks are a prefix and the rest are all later |
| Schedules.RunDueSplit | src/cvm/lib/schedule.ts:15-30 | running a list of tasks is running its first part and, unless that produced an output, the second |
| Tasks.InputsExactly | src/cvm/lib/schedule.ts:35-68 | a task tries an input if and only if its action is listed and its path is, or it has none and needs none |
| Tasks.InputsInOrder | src/cvm/lib/schedule.ts:45-66 | action by action |
| Tasks.OneAction | src/cvm/lib/schedule.ts:49-62 | each path action goes through the listed paths in order, any other stands alone |
| Tasks.InputTurn | src/cvm/lib/schedule.ts:45-66 | every input has its turn on the machine the earlier ones left, unless one of them brought the output |
| Tasks.TaskDisputesAll | src/cvm/lib/schedule.ts:35-68 | a timely task that lists a dispute leaves every listed path disputed, unless it ends in an output |
| Tasks.TaskCloses | src/cvm/lib/schedule.ts:59-62 | a timely task that lists a close leaves the machine closed |
| Schedules.QueueConsumed | src/cvm/lib/schedule.ts:15-30 | a run without output takes exactly the due tasks out of the queue if and only if nothing is due or nothing is stale |
| Schedules.ScheduleStep | src/cvm/lib/schedule.ts:15-30 | one call consumes the tasks due by its stop time, each once, in queue order; an output ends it early; the rest stays in order |
| Schedules.InitOrdered | src/cvm/lib/schedule.ts:8-13 | the queue starts in timer order |
| Schedules.NeverLate | src/cvm/lib/state.ts:74-83 | with no timer below zero, on every reachable machine the queue is in order, no pending task is stamped before the commit clock, and no scheduled attempt meets the timestamp rejection |
| Schedules.NeverLateExactly | src/core/validation/proposal.ts:102-114 | no run ever has a pending task before the commit clock, if and only if no timer is below zero |
| Advances.ComposesExactly | src/cvm/lib/main.ts:83-95 | on any ordered queue, advancing to a and then to b is advancing to the later of them if and only if there is an output, the first advance ends in one or has nothing due, no task is stale, or the second stops no later and has nothing left to run |
| Advances.AdvancesCompose | src/cvm/lib/schedule.ts:15-30 | the same on every reachable machine of any schedule, runs cut short by an output included; with no timer below zero it always holds |
| Advances.RunsStayOrdered | src/cvm/lib/schedule.ts:8-30 | the queue of every reachable machine is in timer order, whatever the schedule |
| Advances.StaleTaskRepeats | src/cvm/lib/schedule.ts:26-29 | a concrete proposal where two advances commit twice and one commits once |
| Ballots.RecordedVote | src/cvm/lib/methods/endorse.ts:65-103 | a recorded vote is new, and is added to its own label and to no other |
| Ballots.EndorseSound | src/cvm/lib/methods/endorse.ts:9-36 | ballots keep unique labels and different members and only grow; approval means the threshold is on record |
| Ballots.ApprovedExactly | src/cvm/lib/methods/endorse.ts:18-35 | a statement is approved if and only if some opening run of its signatures are first votes of different members that reach the threshold |
| Tallies.VotesLeft | src/cvm/lib/methods/endorse.ts:18-35 | whatever the verdict, the votes left are the old ones and those of the leading signatures that are first votes of different members, up to the threshold; no other label changes; and which verdict and error |
| Tallies.VotesSplit | src/cvm/lib/methods/endorse.ts:9-36 | voting in two goes is voting in one, if the first does not approve |
| Tallies.VotesAddUp | src/cvm/lib/methods/endorse.ts:65-103 | on every reachable machine in dispute, timely statements to resolve a path that together bring enough first votes close the machine, whatever due tasks run in between |
| Ballots.LabelsDiffer | src/cvm/lib/methods/endorse.ts:29-32 | different (path, action) pairs never share a vote label |
| Ballots.VotesAreSound | src/cvm/lib/methods/endorse.ts:9-103 | over every run, stores are well formed and every commit made through an endorse program still has its threshold of different members on record |
| Ballots.VotesOnlyGrow | src/cvm/lib/methods/endorse.ts:65-103 | however a run goes on, no vote is lost or reordered |
| Provenance.CommitsEarned | src/cvm/lib/program.ts:78-94 | over every run of honest statements, each commit by a statement in the history was submitted, and some program of the proposal has its id and lists its action and path; a claim met its lock, with a member's signature |
| Provenance.UnlistedThrows | src/cvm/lib/program.ts:58-94 | a statement whose program is unknown, or does not list its action or path, throws if and only if no due task has closed the machine first |
| Provenance.VotesSigned | src/cvm/lib/methods/endorse.ts:22-33 | every vote on record on a reachable machine is by a signature in a submitted statement for that label of that program |
| Provenance.VotesValid | src/core/validation/witness.ts:30-78 | over runs of verified statements, a valid one |
| Provenance.VerifiedErrors | src/core/validation/witness.ts:30-62 | a verified statement never ends in a clock error or in that of a stranger's signature |
| Acceptance.ClaimedExactly | src/cvm/lib/methods/claim.ts:10-44 | a claim is approved if and only if its first argument is a hash and the preimage of the lock, and its first signature a member's |
| Replays.BatchEqualsReplay | src/cvm/lib/main.ts:42-78 | one call over a stack equals one call per statement, if and only if it did not close without an output leaving a due task behind |
| Replays.BatchThrows | src/cvm/util/base.ts:19-31 | a stack that throws in one call throws in the replay |
| Replays.ReplayIgnoresError | src/cvm/lib/main.ts:50-52 | an error from an earlier call does not influence the next |
| Replays.ReplayGoesOn | src/core/validation/contract.ts:157-165 | for every stack that evaluates, replaying it is replaying the statements the one call did not get to, from the machine it left |
| Replays.ComparedExactly | src/core/validation/contract.ts:157-176 | for every stack, with or without an error, the two executions agree on all compared fields if and only if nothing behind the last statement reached throws or commits |
| Replays.ErrorStopsBatch | src/cvm/lib/main.ts:61-77 | a concrete proposal and stack where the one call ends in an error, the replay closes the machine, and the verifier rejects |
| Replays.FailedStatement | src/cvm/lib/main.ts:50-77 | a failing statement leaves what the schedule alone would, except the error and the votes |
| Replays.VerifyExecution | src/core/validation/contract.ts:157-176 | starting over, one call per statement, then comparing |
| Replays.VerifySession | src/core/validation/contract.ts:230-272 | both executions of the session verifier, for every stack: the answer is the verdict on the statements behind the one the first execution ended at, and acceptance if it ended in no error and left no due task behind; the caller's statements end in stamp order |
| Verdicts.ForeignExactly | src/core/validation/contract.ts:157-176 | a machine reached by any other honest run of the proposal agrees with the replay if and only if their heads are equal, with timers of at least 0 |
| Guards.VerifiedStatement | src/core/validation/witness.ts:30-62 | on every reachable machine a statement that passed verification throws if and only if it is misshapen and the schedule has not closed the machine; a well-shaped one never throws |
| Guards.LoadsExactly | src/cvm/lib/program.ts:58-108 | for a verified statement the access checks pass if and only if it has a path exactly when its action can use one |
| Guards.ProgramThrows | src/cvm/lib/program.ts:58-108 | for a verified statement the program throws if and only if the statement is misshapen |
| Guards.PathsSetUpExactly | src/cvm/lib/path.ts:30-56 | setup succeeds if and only if every path some program may dispute is one some program may resolve |
| Guards.DisputeHasResolver | src/cvm/lib/path.ts:49-56 | a path that a statement can dispute has a program that grants its resolution |
| Disputes.DisputedExactly | src/cvm/lib/path.ts:58-69 | a reachable machine that is not closed has status disputed if and only if one of its paths is disputed |
| Disputes.DisputeOrigin | src/cvm/lib/path.ts:49-56 | on every reachable machine a disputed path is one that some program resolves or one that a task of the schedule disputes |
| Disputes.ResolvableExactly | src/cvm/lib/path.ts:30-56 | over all schedules and runs, the path is only disputed where it can be resolved, if and only if some program resolves it |
| Guards.DisputeLasts | src/cvm/lib/action.ts:33-38 | due tasks keep a disputed machine disputed, or close it |
| Guards.NoDeadEnd | src/cvm/lib/main.ts:56-71 | on every reachable machine in dispute, a timely resolving statement never throws and closes the machine if and only if its signatures carry the vote or a due task closed it first |
| Guards.FirstVoteResolves | src/cvm/lib/methods/endorse.ts:18-35 | with no votes yet, threshold-many different members always close a disputed machine |
| Guards.CarriableExactly | src/cvm/lib/methods/endorse.ts:18-35 | some set of signatures carries a vote if and only if enough members have not voted yet |
| Disputes.EarlyResolve | src/cvm/lib/action.ts:33-38 | outside a dispute an approved resolution ends in the not-disputed error and leaves its threshold of votes on record |
| Disputes.EarlyUnanimity | src/cvm/lib/methods/endorse.ts:65-103 | on every reachable machine, if its threshold takes every member, that leaves nobody to vote again |
| Disputes.LabelExhausted | src/cvm/lib/methods/endorse.ts:65-103 | once every member has voted for an action on a path, no statement through that program makes that commit, however the run goes on |
| Disputes.NeverResolved | src/cvm/lib/methods/endorse.ts:18-35 | so after a unanimous resolution that came too early, no run resolves the path through that program |
| Disputes.DeadEnd | src/cvm/lib/path.ts:30-56 | a concrete run into a dispute whose only member has already voted |
| Disputes.ActionsReadExactly | src/core/validation/util.ts:1-19 | on the valid actions both readings of a checked pattern agree |
| Disputes.UnlockGranted | src/cvm/lib/path.ts:42 | a checked pattern passes the test for `unlock` if and only if it grants `lock` |
| Disputes.StartsLockedExactly | src/cvm/lib/path.ts:30-47 | a path starts locked if and only if some program on it passes for `unlock`, on a checked proposal if and only if some program on it grants `lock` |
| Disputes.LockedSpentInDispute | src/cvm/lib/action.ts:33-63 | on every run that spends a path which started locked, the machine was in dispute before |
| History.HeadRebuilds | src/cvm/lib/state.ts:64-72 | after every run the head alone rebuilds paths, status, output and clocks |
| History.HeadFixesHistory | src/core/module/witness/util.ts:12-18 | equal heads mean equal path states, status, output, closing time and step, for any schedule with timers of at least 0, although output and paths are never hashed |
| Forks.EqualHeadsFork | src/cvm/lib/state.ts:64-72 | with timers below 0 it fails: one proposal, two runs, equal heads, different outputs |
| History.ChainRecordsCommits | src/cvm/lib/state.ts:53-72 | the chain holds each commit once, with consecutive steps and stamps that never go back |
| Contracts.ViewSurvives | src/core/module/contract/state.ts:115-155 | an operation of a later stage leaves preimage, proof and flag of every earlier stage alone |
| Contracts.StageSigned | src/core/module/contract/util.ts:202-225 | each operation signs its stage so that the finished record verifies |
| Contracts.StagesStayVerifiable | src/core/module/contract/data.ts:36-246 | after every run in life-cycle order the preimage of every stage passed, rebuilt from the final record, is the one signed; all signatures verify if and only if the contract was not canceled |
| Contracts.CanceledNeverVerifies | src/core/module/contract/state.ts:126-129 | no record verifies at its canceled stage |
| Contracts.EarlyOpAfterSecure | src/core/module/contract/data.ts:83-138 | adding, confirming or removing a deposit, or canceling, on a contract that is secured or further on keeps the signature of that stage if and only if it adds or removes a pending deposit worth nothing |
| Contracts.SignatureBinds | src/core/module/contract/state.ts:52-155 | a record that verifies with a signature agrees with the record that was signed on everything its stage is about, earlier signatures included, and the agent signed it |
| Contracts.SecureRecords | src/core/module/contract/data.ts:140-167 | the totals and the effective time that securing writes, after any later operations |
| Contracts.ActivationExactly | src/core/validation/contract.ts:144-155 | after an activation and any later operations the verifier accepts exactly the machine set up then for this contract and term, on a contract that is not canceled |
| Contracts.CloseExactly | src/core/validation/contract.ts:178-187 | a contract can be closed if and only if it is active and the machine closed; the verifier then accepts exactly the machines with the same closing time, head and output |
| Contracts.SpendRecords | src/core/module/contract/data.ts:211-225 | what a spend writes, after the settlement too |
| Contracts.SettleRecords | src/core/module/contract/data.ts:227-246 | the block a settlement writes, or the time without one |
| Endings.SettlesTheOutput | src/core/module/contract/data.ts:192-209 | for a machine any run reaches for the contract's proposal: the contract closed with it can be settled if and only if there is an output that every deposit covers, and pays exactly what the proposal lists under that output, and its payments and fees |
| Endings.SpendingExactly | src/core/validation/contract.ts:189-213 | the verifier accepts exactly the recorded spend of these funds to the template of the output |
| Deposits.DepositLifeCycle | src/core/module/deposit/data.ts:63-167 | over every run locked and closed never coincide, settled implies spent or closed, these imply confirmed; status is a function of the flags and every flagged stage verifies |
| Deposits.SpendKeepsSignatures | src/core/module/deposit/data.ts:133-148 | a spend keeps all signatures valid if and only if the deposit was not closed |
| Deposits.CycleStep | src/core/module/deposit/state.ts:88-120 | each transition, release and new lock included, keeps every flagged signature valid |
| Deposits.AcceptedExactly | src/core/module/deposit/data.ts:63-167 | which operations a deposit accepts, by its flags |
| Deposits.ConfirmRecords | src/core/module/deposit/data.ts:63-81 | a confirmation is recorded with the term it starts, for good |
| Deposits.LockHolds | src/core/module/deposit/data.ts:102-117 | a lock stores its covenant, and until a release the deposit keeps it and is neither locked again nor closed |
| Deposits.ReleaseClears | src/core/module/deposit/data.ts:119-131 | a release takes covenant and signature away and nothing else |
| Deposits.CloseIsFinal | src/core/module/deposit/data.ts:83-100 | the return transaction of a close stays, and nothing locks, releases or closes the deposit again |
| Deposits.SpendIsFinal | src/core/module/deposit/data.ts:133-148 | the transaction of a spend stays, and only settlements follow |
| Deposits.SettleRecords | src/core/module/deposit/data.ts:150-167 | the block a settlement writes |
| Deposits.SignatureBinds | src/core/module/deposit/state.ts:88-120 | what verifies with a signature agrees with the record that was signed on everything its stage is about |
| Funding.GetPathVouts | src/core/lib/proposal.ts:102-118 | sorts the shared payments in place and appends them to the sorted payments of the path |
| Funding.CreateSpendTemplates | src/core/module/contract/util.ts:93-112 | sorting one shared list again for each path gives each path the template it would get from the original list |
| Funding.GetPathTotal | src/core/lib/proposal.ts:124-141 | one total per path name, in name order |
| Funding.TemplatesOf | src/core/lib/proposal.ts:102-118 | each template's outputs sum to its path's total plus the shared payments |
| Funding.TemplatesConserve | src/core/validation/proposal.ts:66-85 | every template pays out exactly the subtotal if and only if the proposal passes the payment check |
| Funding.TemplatesPayExactly | src/core/module/contract/util.ts:93-112 | every template pays, for each amount and address, as often as the proposal lists it under that path, and then the shared payments and fees, each part in order |
| Funding.PathPaymentsExactly | src/core/lib/proposal.ts:53-59 | the payments of a path are those listed under it, each as often |
| Funding.PathNamesExactly | src/core/lib/proposal.ts:65-72 | the path names are those in use, once each, in order |
| Funding.AgreesStep | src/core/module/contract/data.ts:96-138 | adding, confirming or removing a deposit keeps the running totals equal to a recount |
| Funding.RunningTotals | src/core/module/contract/util.ts:147-169 | after any sequence of changes the running totals are the tabulation, and the transaction total exceeds it by exactly the confirmed funds |
| Funding.UnsecuredFunding | src/core/validation/contract.ts:130-142 | so before securing the verifier accepts the totals if and only if pending and confirmed funds are zero |
| Funding.SecuredFunding | src/core/module/contract/data.ts:140-167 | after securing the verifier accepts every total and the tabulated rate is the fee rate |
| Funding.QuotedBalance | src/core/module/contract/util.ts:171-180 | one more confirmed deposit lets the contract be secured if and only if it is worth the quoted balance plus its own input fee |
| Settlements.CreatedWellMade | src/core/module/contract/data.ts:36-81 | a proposal makes a contract if and only if it has a path, and the contract then has a template for exactly its path names and the totals the fund theorems start from |
| Settlements.GetSettlementTx | src/core/module/contract/util.ts:127-145 | one signed input per deposit, in order, on the template of the machine's output; a deposit without a covenant for that path makes it throw |
| Settlements.SettledExactly | src/core/module/contract/util.ts:114-145 | a contract can be settled if and only if it closed on an output with a template and every deposit has a share for that path, and each input carries the share given for it |
| Settlements.SettlementPaysFee | src/core/module/contract/data.ts:149-157 | every settlement of a secured contract pays out the subtotal and leaves the miner the rest, at least fee rate times the recorded size, which covers the chosen template and its inputs |
| Settlements.ProposalPaysFee | src/core/module/contract/data.ts:36-167 | the same for every contract made from a checked proposal, through any operations before it is secured |
| Drafts.DraftSession.AddMemberData | src/client/lib/enrollment.ts:97-106 | pushes each template as a new entry or the key onto the entry with its terms |
| Drafts.DraftSession.RemMemberData | src/client/lib/enrollment.ts:122-127 | drops the entries this key alone holds and splices the key out of the others, in place |
| Drafts.DraftSession.JoinSession | src/client/lib/session.ts:48-64 | throws for a member, a missing role or a full role and then changes nothing |
| Drafts.DraftSession.LeaveSession | src/client/lib/session.ts:66-76 | members and table after a leave |
| Drafts.AddHolds | src/core/lib/program.ts:63-72 | one template added keeps one entry per terms, with exactly the keys owed |
| Drafts.JoinKeeps | src/client/lib/enrollment.ts:75-109 | a join keeps table, members and seats in agreement |
| Drafts.LeaveKeeps | src/client/lib/enrollment.ts:111-130 | a leave keeps them in agreement |
| Drafts.TableAgreesExactly | src/client/lib/session.ts:48-76 | after every run of joins and leaves there is one entry for exactly the terms some member's role lists, with exactly those members' keys in joining order, once each, no role over its seats and nobody twice, if and only if every role that can be joined lists key-less terms at most once |
| Drafts.LeaveUndoesJoin | src/client/lib/enrollment.ts:75-130 | leaving right after joining restores the session exactly, order included |
| Drafts.JoinExactly | src/client/lib/enrollment.ts:195-204 | a key joins a role if and only if it is no member yet and the role has fewer holders than seats |
| Drafts.JoinNeedsRole | src/client/lib/enrollment.ts:39-46 | joining a role that does not exist throws |
| Drafts.KeyLeftBehind | src/client/lib/enrollment.ts:122-127 | for any template listed twice, a join and a leave leave an entry with the key of the member who left |

## Left out

- Network clients, API wrappers and oracle polling: they only carry data.
- musig2, taproot, covenant, return and recovery signing, and the account module: signatures and digests are abstract and injective here, and combining the two shares on a settlement input always succeeds.
- Schema parsing and JSON serialisation are the identity on well-formed data; a vote store is a list of labels with keys instead of its JSON text.
- `regex` patterns are alternations of plain labels, or `*`; other regular-expression syntax is not modelled.
- Thresholds, amounts and times are integers; `NaN`, fractions and rounding of number arithmetic are not modelled. A division by zero in `tabulate_funds` gives 0 here.
- Real clocks: every stamp is a parameter.
- A contract without any spending path, whose largest template size is the maximum of nothing: making one throws here.
- Address validity in `check_payments`, and the size of a serialised output list, which is an arbitrary function here.
- The paths and payments a member adds to a draft, whose removal depends on wallet addresses; the draft theorems are about the program table. A draft session is updated as one object here, while the code returns a new record that shares entries with the old one.
- Drafts.TableAgreesExactly: keys in joins and leaves are not words that occur in a role's templates.
- Guards.NoDeadEnd: for a machine still in dispute; the program is the one the machine finds under the statement's program id, since programs that differ only in actions or paths share an id.
- Contracts.StagesStayVerifiable: for operations in life-cycle order, each of which may be left out or repeated, by one agent.
- Endings.SettlesTheOutput: of the machine's configuration only its path names are tied to the proposal, since a proposal's programs and schedule do not bear on the payout; machine ids are not tied to the machine's own id text.
- Verdicts.ForeignExactly: timers of at least 0, as for the history.
- History.HeadFixesHistory: for statements whose id is the digest of their template, as the verifier demands, and timers of at least 0.
- The claim method beyond its preimage, membership and signature checks, which keep no state.
- `tabulate_slots`, `has_full_roles`, `verify_member_data`, `get_deadline` and `verify_utxo_lock`: short checks that nothing above depends on.
