/** The contract record, its transitions, and the rolled-back views its agent signs. */
module Contracts {
  import opened Basics
  import Cvm

  const CONTRACT_KIND := 8001
  const SPEND_TXIN_SIZE := 59

  datatype Payment = Payment(value: int, address: string)

  datatype PathPayment = PathPayment(path: string, value: int, address: string)

  /** The proposal's fields that a contract computes with. */
  datatype Proposal = Proposal(
    paths: seq<PathPayment>, payments: seq<Payment>, value: int,
    duration: int, effective: Option<int>, moderator: Option<string>, id: string)

  /** A transaction with outputs and no inputs, and its size in bytes. */
  datatype SpendTemplate = SpendTemplate(name: string, vout: seq<Payment>, size: nat)

  datatype Hash = MachineHash(activeAt: int, cid: string, closesAt: int) | HeadHash(head: Cvm.Head)

  /* ---------- the record, by the groups its transitions write ---------- */

  datatype Base = Base(
    agentPk: string, cid: string, createdAt: int, deadlineAt: int, endorsements: seq<string>,
    feerate: int, fees: seq<Payment>, moderator: Option<string>, outputs: seq<SpendTemplate>,
    propId: string, subtotal: int, terms: Proposal, txBsize: int, vinTxfee: int)

  datatype Funds = Funds(fundsConf: int, fundsPend: int, txFees: int, txTotal: int, txVsize: int, vinCount: int)

  datatype Canceling = Canceling(canceled: bool, canceledAt: Option<int>, canceledSig: Option<Proof>)

  datatype Securing = Securing(secured: bool, effectiveAt: Option<int>, securedSig: Option<Proof>)

  datatype Activation = Activation(
    activated: bool, activeAt: Option<int>, activeSig: Option<Proof>,
    machineHead: Option<Hash>, machineVmid: Option<Hash>, expiresAt: Option<int>)

  datatype Closing = Closing(
    closed: bool, closedAt: Option<int>, closedSig: Option<Proof>, machineVout: Option<string>)

  datatype Spending = Spending(
    spent: bool, spentAt: Option<int>, spentSig: Option<Proof>, spentTxhex: Option<string>, spentTxid: Option<string>)

  datatype Settling = Settling(
    settled: bool, settledAt: Option<int>, settledSig: Option<Proof>,
    spentBlock: Option<string>, spentHeight: Option<int>)

  datatype Status = Published | Canceled | Secured | Active | Closed | Spent | Settled

  datatype Record = Record(
    base: Base, funds: Funds, canceling: Canceling, securing: Securing, activation: Activation,
    closing: Closing, spending: Spending, settling: Settling, createdSig: Option<Proof>, status: Status)

  /** A contract is a record with the one field no signature covers. */
  datatype Contract = Contract(record: Record, updatedAt: int)

  /** What a signature commits to; its digest is injective. */
  datatype Note = Note(content: Record, createdAt: int, kind: int, pubkey: string, cid: string)

  /** A digest with a signature on it. */
  datatype Proof = Proof(note: Note, signer: string)

  /* ---------- blank states (state.ts) ---------- */

  const INIT_PUBLISH_STATE := Funds(0, 0, 0, 0, 0, 0)
  const INIT_CANCEL_STATE := Canceling(false, None, None)
  const INIT_FUNDING_STATE := Securing(false, None, None)
  const INIT_ACTIVE_STATE := Activation(false, None, None, None, None, None)
  const INIT_CLOSE_STATE := Closing(false, None, None, None)
  const INIT_SPEND_STATE := Spending(false, None, None, None, None)
  const INIT_SETTLE_STATE := Settling(false, None, None, None, None)

  /* ---------- views ---------- */

  function SettleView(r: Record): Record {
    r.(settling := r.settling.(settledSig := None), status := Settled)
  }

  function SpendView(r: Record): Record {
    r.(settling := INIT_SETTLE_STATE, spending := r.spending.(spentSig := None), status := Spent)
  }

  function CloseView(r: Record): Record {
    SpendView(r).(spending := INIT_SPEND_STATE, closing := r.closing.(closedSig := None), status := Closed)
  }

  function ActiveView(r: Record): Record {
    CloseView(r).(closing := INIT_CLOSE_STATE,
                  activation := r.activation.(activeSig := None, machineHead := None), status := Active)
  }

  function FundingView(r: Record): Record {
    ActiveView(r).(activation := INIT_ACTIVE_STATE, securing := r.securing.(securedSig := None), status := Secured)
  }

  function PublishView(r: Record): Record {
    ActiveView(r).(activation := INIT_ACTIVE_STATE, canceling := INIT_CANCEL_STATE, funds := INIT_PUBLISH_STATE,
                   securing := INIT_FUNDING_STATE, createdSig := None, status := Published)
  }

  function View(r: Record, stage: Status): Record {
    match stage
    case Published => PublishView(r)
    case Canceled => r
    case Secured => FundingView(r)
    case Active => ActiveView(r)
    case Closed => CloseView(r)
    case Spent => SpendView(r)
    case Settled => SettleView(r)
  }

  function Stamp(r: Record, stage: Status): Option<int> {
    match stage
    case Published => Some(r.base.createdAt)
    case Canceled => r.canceling.canceledAt
    case Secured => r.securing.effectiveAt
    case Active => r.activation.activeAt
    case Closed => r.closing.closedAt
    case Spent => r.spending.spentAt
    case Settled => r.settling.settledAt
  }

  /** `get_contract_preimg`; a missing stamp makes it throw. */
  function Preimage(r: Record, stage: Status): Call<Note> {
    var stamp := Stamp(r, stage);
    if stamp.None? then Throws
    else Returns(Note(View(r, stage), stamp.value, CONTRACT_KIND, r.base.agentPk, r.base.cid))
  }

  function Notarize(r: Record, signer: string, stage: Status): Option<Proof> {
    var note := Preimage(r, stage);
    if note.Throws? then None else Some(Proof(note.value, signer))
  }

  /* ---------- verification ---------- */

  function StoredProof(r: Record, stage: Status): Option<Proof> {
    match stage
    case Published => r.createdSig
    case Canceled => r.canceling.canceledSig
    case Secured => r.securing.securedSig
    case Active => r.activation.activeSig
    case Closed => r.closing.closedSig
    case Spent => r.spending.spentSig
    case Settled => r.settling.settledSig
  }

  predicate Passed(r: Record, stage: Status) {
    match stage
    case Published => true
    case Canceled => r.canceling.canceled
    case Secured => r.securing.secured
    case Active => r.activation.activated
    case Closed => r.closing.closed
    case Spent => r.spending.spent
    case Settled => r.settling.settled
  }

  /** `verify_contract_sig`: the digest rebuilt from this record is the one that was signed,
      and the contract's agent signed it. */
  predicate VerifySig(r: Record, pubkey: string, stage: Status) {
    var (proof, note) := (StoredProof(r, stage), Preimage(r, stage));
    && proof.Some? && note.Returns?
    && pubkey == r.base.agentPk
    && note.value == proof.value.note
    && proof.value.signer == r.base.agentPk
  }

  const STAGES: seq<Status> := [Published, Canceled, Secured, Active, Closed, Spent, Settled]

  /** `verify_contract_sigs`: every stage the record says it has passed. */
  predicate VerifySigs(c: Contract, pubkey: string) {
    forall stage | stage in STAGES && Passed(c.record, stage) :: VerifySig(c.record, pubkey, stage)
  }

  /* ---------- transitions (data.ts) ---------- */

  /** A funder's signature share for one spending path. */
  datatype Psig = Psig(path: string, share: string)

  datatype Deposit = Deposit(dpid: string, value: int, confirmed: bool, covenant: Option<seq<Psig>>)

  datatype VmData = VmData(
    activeAt: int, closed: bool, closedAt: Option<int>, head: Hash, output: Option<string>, vmid: Hash)

  datatype TxConf = TxConf(blockTime: int, blockHash: string, blockHeight: int)

  datatype Op =
    | Add(deposit: Deposit)
    | Confirm(deposit: Deposit)
    | Remove(deposit: Deposit)
    | Cancel(canceledAt: int)
    | Secure(deposits: seq<Deposit>, securedAt: int)
    | Activate(activatedAt: int)
    | Close(vmdata: VmData)
    | Spend(txhex: string, txid: string, spentAt: int)
    | Settle(txstatus: Option<TxConf>, settledAt: int)

  function AddFunds(f: Funds, vinTxfee: int, d: Deposit): Funds {
    if d.confirmed then
      f.(fundsConf := f.fundsConf + d.value, txFees := f.txFees + vinTxfee,
         txTotal := f.txTotal + (d.value + vinTxfee), txVsize := f.txVsize + SPEND_TXIN_SIZE,
         vinCount := f.vinCount + 1)
    else
      f.(fundsPend := f.fundsPend + d.value)
  }

  function ConfirmFunds(f: Funds, vinTxfee: int, d: Deposit): Funds {
    var added := AddFunds(f, vinTxfee, d);
    added.(fundsPend := added.fundsPend - d.value)
  }

  function RemoveFunds(f: Funds, vinTxfee: int, d: Deposit): Funds {
    if d.confirmed then
      f.(fundsConf := f.fundsConf - d.value, txFees := f.txFees - vinTxfee,
         txTotal := f.txTotal - (d.value + vinTxfee), txVsize := f.txVsize - SPEND_TXIN_SIZE,
         vinCount := f.vinCount - 1)
    else
      f.(fundsPend := f.fundsPend - d.value)
  }

  function Total(deposits: seq<Deposit>): int {
    if deposits == [] then 0 else deposits[0].value + Total(deposits[1..])
  }

  /** The totals `secure_contract` computes from scratch. */
  function SecuredFunds(b: Base, deposits: seq<Deposit>): Funds {
    var txFees := b.feerate * b.txBsize + b.vinTxfee * |deposits|;
    Funds(Total(deposits), 0, txFees, b.subtotal + txFees,
          b.txBsize + |deposits| * SPEND_TXIN_SIZE, |deposits|)
  }

  predicate CanSecure(r: Record, deposits: seq<Deposit>) {
    && !r.canceling.canceled
    && (forall d | d in deposits :: d.confirmed)
    && SecuredFunds(r.base, deposits).fundsConf >= SecuredFunds(r.base, deposits).txTotal
  }

  function Step(c: Contract, op: Op, signer: string): Call<Contract> {
    var r := c.record;
    match op
    case Add(d) => Returns(c.(record := r.(funds := AddFunds(r.funds, r.base.vinTxfee, d))))
    case Confirm(d) =>
      if !d.confirmed then Throws
      else Returns(c.(record := r.(funds := ConfirmFunds(r.funds, r.base.vinTxfee, d))))
    case Remove(d) => Returns(c.(record := r.(funds := RemoveFunds(r.funds, r.base.vinTxfee, d))))
    case Cancel(at) =>
      var changes := r.canceling.(canceled := true, canceledAt := Some(at));
      var updated := r.(canceling := changes, status := Canceled);
      Returns(Contract(updated.(canceling := changes.(canceledSig := Notarize(updated, signer, Canceled))), at))
    case Secure(deposits, at) =>
      if !CanSecure(r, deposits) then Throws
      else
        var effective := if r.base.terms.effective.Some? then r.base.terms.effective else Some(at);
        var changes := r.securing.(secured := true, effectiveAt := effective);
        var updated := r.(funds := SecuredFunds(r.base, deposits), securing := changes, status := Secured);
        Returns(Contract(updated.(securing := changes.(securedSig := Notarize(updated, signer, Secured))), at))
    case Activate(at) =>
      var expires := at + r.base.terms.duration;
      var vmid := MachineHash(at, r.base.cid, expires);
      var changes := Activation(true, Some(at), r.activation.activeSig, Some(vmid), Some(vmid), Some(expires));
      var updated := r.(activation := changes, status := Active);
      Returns(Contract(updated.(activation := changes.(activeSig := Notarize(updated, signer, Active))), at))
    case Close(vm) =>
      if !r.activation.activated || !vm.closed || vm.closedAt.None? then Throws
      else
        var changes := Closing(true, vm.closedAt, r.closing.closedSig, vm.output);
        var activation := r.activation.(machineHead := Some(vm.head));
        var updated := r.(closing := changes, activation := activation, status := Closed);
        var signed := changes.(closedSig := Notarize(updated, signer, Closed));
        Returns(Contract(updated.(closing := signed), vm.closedAt.value))
    case Spend(txhex, txid, at) =>
      var changes := Spending(true, Some(at), r.spending.spentSig, Some(txhex), Some(txid));
      var updated := r.(spending := changes, status := Spent);
      Returns(Contract(updated.(spending := changes.(spentSig := Notarize(updated, signer, Spent))), at))
    case Settle(txstatus, at) =>
      var changes := if txstatus.None? then Settling(true, Some(at), r.settling.settledSig, None, None)
                     else Settling(true, Some(txstatus.value.blockTime), r.settling.settledSig,
                                   Some(txstatus.value.blockHash), Some(txstatus.value.blockHeight));
      var updated := r.(settling := changes, status := Settled);
      Returns(Contract(updated.(settling := changes.(settledSig := Notarize(updated, signer, Settled))), at))
  }

  function PublishedRecord(base: Base): Record {
    var txFees := base.txBsize * base.feerate;
    Record(base, Funds(0, 0, txFees, base.subtotal + txFees, base.txBsize, 0), INIT_CANCEL_STATE, INIT_FUNDING_STATE,
           INIT_ACTIVE_STATE, INIT_CLOSE_STATE, INIT_SPEND_STATE, INIT_SETTLE_STATE, None, Published)
  }

  /** `create_contract`, given the fields it computes from the request. */
  function Create(base: Base, signer: string): Contract {
    var template := PublishedRecord(base);
    Contract(template.(createdSig := Notarize(template, signer, Published)), base.createdAt)
  }

  /* ---------- stages stay verifiable ---------- */

  function OpRank(op: Op): nat {
    match op
    case Add(_) => 1
    case Confirm(_) => 1
    case Remove(_) => 1
    case Cancel(_) => 1
    case Secure(_, _) => 2
    case Activate(_) => 3
    case Close(_) => 4
    case Spend(_, _, _) => 5
    case Settle(_, _) => 6
  }

  function StageRank(stage: Status): nat {
    match stage
    case Published => 0
    case Canceled => 1
    case Secured => 2
    case Active => 3
    case Closed => 4
    case Spent => 5
    case Settled => 6
  }

  /** The operations in the order of the life cycle; any may be repeated or left out. */
  predicate InOrder(ops: seq<Op>, rank: nat) {
    ops == [] || (rank <= OpRank(ops[0]) && InOrder(ops[1..], OpRank(ops[0])))
  }

  function RunOps(c: Contract, ops: seq<Op>, signer: string): Call<Contract>
    decreases |ops|
  {
    if ops == [] then Returns(c)
    else if Step(c, ops[0], signer).Throws? then Throws
    else RunOps(Step(c, ops[0], signer).value, ops[1..], signer)
  }

  /** A later stage's operation leaves an earlier stage's view, stamp and signature as they were. */
  lemma ViewSurvives(c: Contract, op: Op, signer: string, stage: Status)
    requires Step(c, op, signer).Returns? && StageRank(stage) < OpRank(op) && stage != Canceled
    ensures var r := Step(c, op, signer).value.record;
            && Preimage(r, stage) == Preimage(c.record, stage)
            && StoredProof(r, stage) == StoredProof(c.record, stage)
            && Passed(r, stage) == Passed(c.record, stage)
            && r.base == c.record.base
  {
  }

  /** An operation signs its own stage so that the finished record verifies. */
  lemma StageSigned(c: Contract, op: Op, stage: Status)
    requires Step(c, op, c.record.base.agentPk).Returns?
    requires StageRank(stage) == OpRank(op) && stage != Canceled
    ensures VerifySig(Step(c, op, c.record.base.agentPk).value.record, c.record.base.agentPk, stage)
  {
  }

  predicate StagesInv(r: Record, pubkey: string, rank: nat) {
    && r.base.agentPk == pubkey
    && forall stage | stage in STAGES && stage != Canceled && Passed(r, stage) ::
         StageRank(stage) <= rank && VerifySig(r, pubkey, stage)
  }

  lemma StagesStep(c: Contract, op: Op, pubkey: string, rank: nat)
    requires StagesInv(c.record, pubkey, rank) && rank <= OpRank(op) && Step(c, op, pubkey).Returns?
    ensures StagesInv(Step(c, op, pubkey).value.record, pubkey, OpRank(op))
  {
    var r := Step(c, op, pubkey).value.record;
    forall stage | stage in STAGES && stage != Canceled && Passed(r, stage)
      ensures StageRank(stage) <= OpRank(op) && VerifySig(r, pubkey, stage)
    {
      if StageRank(stage) < OpRank(op) {
        ViewSurvives(c, op, pubkey, stage);
      } else if StageRank(stage) == OpRank(op) {
        StageSigned(c, op, stage);
      } else {
        assert Passed(c.record, stage);
      }
    }
  }

  lemma {:induction false} StagesRun(c: Contract, ops: seq<Op>, pubkey: string, rank: nat)
    requires StagesInv(c.record, pubkey, rank) && InOrder(ops, rank) && RunOps(c, ops, pubkey).Returns?
    ensures exists last :: StagesInv(RunOps(c, ops, pubkey).value.record, pubkey, last)
    decreases |ops|
  {
    if ops != [] {
      StagesStep(c, ops[0], pubkey, rank);
      StagesRun(Step(c, ops[0], pubkey).value, ops[1..], pubkey, OpRank(ops[0]));
    }
  }

  /** No record with a cancel signature verifies at its canceled stage: the view leaves that
      signature in place, so the digest would have to contain itself. */
  lemma CanceledNeverVerifies(r: Record, pubkey: string)
    ensures !VerifySig(r, pubkey, Canceled)
  {
  }

  /** Every notarised stage stays verifiable. After any run of operations in life-cycle order by
      one agent, the preimage rebuilt from the final record for each stage it has passed is the
      one that was signed at that stage; all signatures verify exactly when the contract was not
      canceled. */
  lemma StagesStayVerifiable(base: Base, ops: seq<Op>)
    requires InOrder(ops, 0) && RunOps(Create(base, base.agentPk), ops, base.agentPk).Returns?
    ensures var c := RunOps(Create(base, base.agentPk), ops, base.agentPk).value;
            && (forall stage | stage in STAGES && stage != Canceled && Passed(c.record, stage) ::
                  VerifySig(c.record, base.agentPk, stage))
            && (VerifySigs(c, base.agentPk) <==> !c.record.canceling.canceled)
  {
    var c := Create(base, base.agentPk);
    assert StagesInv(c.record, base.agentPk, 0);
    StagesRun(c, ops, base.agentPk, 0);
    var last := RunOps(c, ops, base.agentPk).value;
    CanceledNeverVerifies(last.record, base.agentPk);
    assert Canceled in STAGES;
  }

  /** The early operations that leave every later view alone. */
  predicate Neutral(op: Op) {
    match op
    case Add(d) => !d.confirmed && d.value == 0
    case Remove(d) => !d.confirmed && d.value == 0
    case _ => false
  }

  /** Out of order it fails, exactly: a change of the funds or a cancel, made on a contract that
      is secured or further on, voids the signature of that stage, except for adding or removing
      a deposit that is pending and worth nothing. */
  lemma EarlyOpAfterSecure(c: Contract, op: Op, pubkey: string, stage: Status)
    requires OpRank(op) == 1 && StageRank(stage) >= 2 && Step(c, op, pubkey).Returns?
    requires VerifySig(c.record, pubkey, stage)
    ensures VerifySig(Step(c, op, pubkey).value.record, pubkey, stage) <==> Neutral(op)
  {
    var r := Step(c, op, pubkey).value.record;
    assert View(r, stage).funds == r.funds && View(c.record, stage).funds == c.record.funds;
    assert View(r, stage).canceling == r.canceling && View(c.record, stage).canceling == c.record.canceling;
  }

  /* ---------- what the record says about the machine (validation/contract.ts) ---------- */

  /** `verify_contract_activation`. */
  predicate VerifyActivation(r: Record, vm: VmData) {
    && !r.canceling.canceled && r.activation.activated
    && r.activation.activeAt == Some(vm.activeAt)
    && r.activation.machineVmid == Some(vm.vmid)
    && r.activation.expiresAt == Some(vm.activeAt + r.base.terms.duration)
  }

  /** `verify_contract_close`. */
  predicate VerifyClose(r: Record, vm: VmData) {
    && vm.closed && r.closing.closed
    && vm.closedAt == r.closing.closedAt
    && r.activation.machineHead == Some(vm.head)
    && vm.output == r.closing.machineVout
  }

  /** What operations from some rank on leave alone. */
  lemma {:induction false} LaterKeeps(c: Contract, ops: seq<Op>, signer: string, low: nat)
    requires InOrder(ops, low) && low >= 2 && RunOps(c, ops, signer).Returns?
    ensures var (was, r) := (c.record, RunOps(c, ops, signer).value.record);
            && r.base == was.base && r.canceling == was.canceling
            && (low >= 3 ==> r.funds == was.funds && r.securing == was.securing)
            && (low >= 4 ==> r.activation.(machineHead := was.activation.machineHead) == was.activation)
            && (low >= 5 ==> r.activation == was.activation && r.closing == was.closing)
            && (low >= 6 ==> r.spending == was.spending)
    decreases |ops|
  {
    if ops != [] {
      LaterKeeps(Step(c, ops[0], signer).value, ops[1..], signer, low);
    }
  }

  /** After an activation and any later operations, the verifier accepts exactly the machine that
      was set up then, for this contract and this term, on a contract that was not canceled. */
  lemma ActivationExactly(c: Contract, at: int, ops: seq<Op>, signer: string, vm: VmData)
    requires InOrder(ops, 4) && Step(c, Activate(at), signer).Returns?
    requires RunOps(Step(c, Activate(at), signer).value, ops, signer).Returns?
    ensures var r := RunOps(Step(c, Activate(at), signer).value, ops, signer).value.record;
            VerifyActivation(r, vm)
            <==> && !c.record.canceling.canceled && vm.activeAt == at
                 && vm.vmid == MachineHash(at, c.record.base.cid, at + c.record.base.terms.duration)
  {
    LaterKeeps(Step(c, Activate(at), signer).value, ops, signer, 4);
  }

  /** When a contract can be closed, exactly, and what the verifier then accepts, after any later
      operations: a closed machine with the same closing time, head and output, and no other. */
  lemma CloseExactly(c: Contract, vm: VmData, ops: seq<Op>, signer: string, other: VmData)
    requires InOrder(ops, 5)
    ensures Step(c, Close(vm), signer).Returns? <==> c.record.activation.activated && vm.closed && vm.closedAt.Some?
    ensures Step(c, Close(vm), signer).Returns? && RunOps(Step(c, Close(vm), signer).value, ops, signer).Returns? ==>
              var r := RunOps(Step(c, Close(vm), signer).value, ops, signer).value.record;
              && r.closing.closed && r.closing.machineVout == vm.output
              && (VerifyClose(r, other)
                  <==> && other.closed && other.closedAt == vm.closedAt
                       && other.head == vm.head && other.output == vm.output)
  {
    if Step(c, Close(vm), signer).Returns? && RunOps(Step(c, Close(vm), signer).value, ops, signer).Returns? {
      LaterKeeps(Step(c, Close(vm), signer).value, ops, signer, 5);
    }
  }

  /** What a spend records, and keeps. */
  lemma SpendRecords(c: Contract, txhex: string, txid: string, at: int, ops: seq<Op>, signer: string)
    requires InOrder(ops, 6) && RunOps(Step(c, Spend(txhex, txid, at), signer).value, ops, signer).Returns?
    ensures var r := RunOps(Step(c, Spend(txhex, txid, at), signer).value, ops, signer).value.record;
            && r.spending.spent && r.spending.spentAt == Some(at)
            && r.spending.spentTxhex == Some(txhex) && r.spending.spentTxid == Some(txid)
            && r.closing == c.record.closing
  {
    LaterKeeps(Step(c, Spend(txhex, txid, at), signer).value, ops, signer, 6);
  }

  /** What a settlement records: the block of the confirmation, or the given time without one. */
  lemma SettleRecords(c: Contract, conf: Option<TxConf>, at: int, signer: string)
    ensures var r := Step(c, Settle(conf, at), signer).value.record;
            && r.settling.settled && r.spending == c.record.spending
            && (conf.None? ==> r.settling.settledAt == Some(at) && r.settling.spentBlock.None?)
            && (conf.Some? ==>
                  && r.settling.settledAt == Some(conf.value.blockTime)
                  && r.settling.spentBlock == Some(conf.value.blockHash)
                  && r.settling.spentHeight == Some(conf.value.blockHeight))
  {
  }

  /** What securing records, and keeps: the totals of these deposits, and the proposal's
      effective time if it has one. */
  lemma SecureRecords(c: Contract, deposits: seq<Deposit>, at: int, ops: seq<Op>, signer: string)
    requires Step(c, Secure(deposits, at), signer).Returns? && InOrder(ops, 3)
    requires RunOps(Step(c, Secure(deposits, at), signer).value, ops, signer).Returns?
    ensures var r := RunOps(Step(c, Secure(deposits, at), signer).value, ops, signer).value.record;
            && r.funds == SecuredFunds(c.record.base, deposits) && r.securing.secured
            && r.securing.effectiveAt == if c.record.base.terms.effective.Some? then c.record.base.terms.effective
                                         else Some(at)
  {
    LaterKeeps(Step(c, Secure(deposits, at), signer).value, ops, signer, 3);
  }

  /* ---------- what a signature binds ---------- */

  /** Two records with the same preimage at a stage agree on everything that stage is about. */
  predicate BoundAlike(r: Record, s: Record, stage: Status) {
    && r.base == s.base
    && (stage == Canceled ==> r == s)
    && (StageRank(stage) >= 2 ==>
          && r.funds == s.funds && r.canceling == s.canceling && r.createdSig == s.createdSig
          && r.securing.secured == s.securing.secured && r.securing.effectiveAt == s.securing.effectiveAt)
    && (StageRank(stage) >= 3 ==>
          && r.securing == s.securing
          && r.activation.(activeSig := None, machineHead := None)
          == s.activation.(activeSig := None, machineHead := None))
    && (StageRank(stage) >= 4 ==>
          && r.activation == s.activation && r.closing.(closedSig := None) == s.closing.(closedSig := None))
    && (StageRank(stage) >= 5 ==>
          && r.closing == s.closing && r.spending.(spentSig := None) == s.spending.(spentSig := None))
    && (StageRank(stage) >= 6 ==>
          && r.spending == s.spending && r.settling.(settledSig := None) == s.settling.(settledSig := None))
  }

  /** A signature binds: a record that verifies with a proof agrees with the record that was
      signed on everything the stage is about. In particular, no change of an output, a machine
      head, a total or an earlier signature goes unnoticed. */
  lemma SignatureBinds(r: Record, s: Record, signer: string, pubkey: string, stage: Status)
    requires VerifySig(r, pubkey, stage) && StoredProof(r, stage) == Notarize(s, signer, stage)
    ensures BoundAlike(r, s, stage) && signer == pubkey == r.base.agentPk
  {
    assert View(r, stage) == View(s, stage);
  }
}
