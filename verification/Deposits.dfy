/** The deposit record: its guarded transitions, the status they leave, and the views the
    agent signs along the way. */
module Deposits {
  import opened Basics

  const DEPOSIT_KIND := 8002

  datatype Status = Registered | Open | Locked | Closed | Spent | Settled

  datatype Base = Base(agentPk: string, createdAt: int, dpid: string, locktime: int, value: int, request: string)

  datatype Confirming = Confirming(
    confirmed: bool, confirmedAt: Option<int>, confBlock: Option<string>, confHeight: Option<int>,
    expiresAt: Option<int>)

  datatype Locking = Locking(locked: bool, lockedAt: Option<int>, lockedSig: Option<Proof>, covenant: Option<string>)

  datatype Closing = Closing(
    closed: bool, closedAt: Option<int>, closedSig: Option<Proof>,
    returnTxhex: Option<string>, returnTxid: Option<string>)

  datatype Spending = Spending(
    spent: bool, spentAt: Option<int>, spentSig: Option<Proof>, spentTxhex: Option<string>, spentTxid: Option<string>)

  datatype Settling = Settling(
    settled: bool, settledAt: Option<int>, settledSig: Option<Proof>,
    spentBlock: Option<string>, spentHeight: Option<int>)

  datatype Record = Record(
    base: Base, conf: Confirming, locking: Locking, closing: Closing, spending: Spending, settling: Settling,
    createdSig: Option<Proof>, status: Status)

  datatype Deposit = Deposit(record: Record, updatedAt: int)

  datatype Note = Note(content: Record, createdAt: int, kind: int, pubkey: string, dpid: string)

  datatype Proof = Proof(note: Note, signer: string)

  /* ---------- blank states (state.ts) ---------- */

  const INIT_CONF_STATE := Confirming(false, None, None, None, None)
  const INIT_LOCK_STATE := Locking(false, None, None, None)
  const INIT_CLOSE_STATE := Closing(false, None, None, None, None)
  const INIT_SPEND_STATE := Spending(false, None, None, None, None)
  const INIT_SETTLE_STATE := Settling(false, None, None, None, None)

  /** `get_deposit_state`; there is no view of an open deposit. */
  function View(r: Record, stage: Status): Option<Record> {
    match stage
    case Registered =>
      Some(r.(conf := INIT_CONF_STATE, closing := INIT_CLOSE_STATE, locking := INIT_LOCK_STATE,
              spending := INIT_SPEND_STATE, settling := INIT_SETTLE_STATE, createdSig := None, status := Registered))
    case Open => None
    case Locked =>
      Some(r.(settling := INIT_SETTLE_STATE, spending := INIT_SPEND_STATE, conf := INIT_CONF_STATE,
              locking := r.locking.(lockedSig := None), status := Locked))
    case Closed =>
      Some(r.(settling := INIT_SETTLE_STATE, closing := r.closing.(closedSig := None), status := Closed))
    case Spent =>
      Some(r.(settling := INIT_SETTLE_STATE, spending := r.spending.(spentSig := None), status := Spent))
    case Settled =>
      Some(r.(settling := r.settling.(settledSig := None), status := Settled))
  }

  function Stamp(r: Record, stage: Status): Option<int> {
    match stage
    case Registered => Some(r.base.createdAt)
    case Open => None
    case Locked => r.locking.lockedAt
    case Closed => r.closing.closedAt
    case Spent => r.spending.spentAt
    case Settled => r.settling.settledAt
  }

  function Preimage(r: Record, stage: Status): Call<Note> {
    var (view, stamp) := (View(r, stage), Stamp(r, stage));
    if view.None? || stamp.None? then Throws
    else Returns(Note(view.value, stamp.value, DEPOSIT_KIND, r.base.agentPk, r.base.dpid))
  }

  function Notarize(r: Record, signer: string, stage: Status): Option<Proof> {
    var note := Preimage(r, stage);
    if note.Throws? then None else Some(Proof(note.value, signer))
  }

  function StoredProof(r: Record, stage: Status): Option<Proof> {
    match stage
    case Registered => r.createdSig
    case Open => None
    case Locked => r.locking.lockedSig
    case Closed => r.closing.closedSig
    case Spent => r.spending.spentSig
    case Settled => r.settling.settledSig
  }

  predicate Flagged(r: Record, stage: Status) {
    match stage
    case Registered => true
    case Open => false
    case Locked => r.locking.locked
    case Closed => r.closing.closed
    case Spent => r.spending.spent
    case Settled => r.settling.settled
  }

  /** `verify_deposit_sig`. */
  predicate VerifySig(r: Record, pubkey: string, stage: Status) {
    var (proof, note) := (StoredProof(r, stage), Preimage(r, stage));
    && proof.Some? && note.Returns?
    && pubkey == r.base.agentPk
    && note.value == proof.value.note
    && proof.value.signer == r.base.agentPk
  }

  /* ---------- transitions (data.ts) ---------- */

  datatype TxConf = TxConf(blockTime: int, blockHash: string, blockHeight: int)

  datatype Op =
    | Confirm(txstatus: Option<TxConf>)      // None: the transaction is not confirmed
    | Close(txhex: string, txid: string, closedAt: int)
    | Lock(covenant: string, lockedAt: int)
    | Release(releasedAt: int)
    | Spend(txhex: string, txid: string, spentAt: int)
    | Settle(txstatus: Option<TxConf>)

  function Create(base: Base, signer: string): Deposit {
    var template := Record(base, INIT_CONF_STATE, INIT_LOCK_STATE, INIT_CLOSE_STATE, INIT_SPEND_STATE,
                           INIT_SETTLE_STATE, None, Registered);
    Deposit(template.(createdSig := Notarize(template, signer, Registered)), base.createdAt)
  }

  function Step(d: Deposit, op: Op, signer: string): Call<Deposit> {
    var r := d.record;
    match op
    case Confirm(conf) =>
      if r.conf.confirmed || conf.None? then Throws
      else
        var at := conf.value.blockTime;
        var changes := Confirming(true, Some(at), Some(conf.value.blockHash), Some(conf.value.blockHeight),
                                  Some(at + r.base.locktime));
        Returns(Deposit(r.(conf := changes, status := if r.locking.locked then Locked else Open), at))
    case Close(txhex, txid, at) =>
      if !r.conf.confirmed || r.locking.locked || r.closing.closed || r.spending.spent then Throws
      else
        var changes := Closing(true, Some(at), r.closing.closedSig, Some(txhex), Some(txid));
        var updated := r.(closing := changes, status := Closed);
        Returns(Deposit(updated.(closing := changes.(closedSig := Notarize(updated, signer, Closed))), at))
    case Lock(covenant, at) =>
      if r.locking.locked || r.closing.closed || r.spending.spent then Throws
      else
        var changes := Locking(true, Some(at), r.locking.lockedSig, Some(covenant));
        var updated := r.(locking := changes, status := Locked);
        Returns(Deposit(updated.(locking := changes.(lockedSig := Notarize(updated, signer, Locked))), at))
    case Release(at) =>
      if !r.locking.locked || r.closing.closed || r.spending.spent then Throws
      else Returns(Deposit(r.(locking := INIT_LOCK_STATE, status := if r.conf.confirmed then Open else Registered), at))
    case Spend(txhex, txid, at) =>
      if !r.conf.confirmed || r.spending.spent then Throws
      else
        var changes := Spending(true, Some(at), r.spending.spentSig, Some(txhex), Some(txid));
        var updated := r.(spending := changes, status := Spent);
        Returns(Deposit(updated.(spending := changes.(spentSig := Notarize(updated, signer, Spent))), at))
    case Settle(conf) =>
      if !r.conf.confirmed || !(r.spending.spent || r.closing.closed) || conf.None? then Throws
      else
        var at := conf.value.blockTime;
        var (hash, height) := (Some(conf.value.blockHash), Some(conf.value.blockHeight));
        var changes := Settling(true, Some(at), r.settling.settledSig, hash, height);
        var updated := r.(settling := changes, status := Settled);
        Returns(Deposit(updated.(settling := changes.(settledSig := Notarize(updated, signer, Settled))), at))
  }

  function RunOps(d: Deposit, ops: seq<Op>, signer: string): Call<Deposit>
    decreases |ops|
  {
    if ops == [] then Returns(d)
    else if Step(d, ops[0], signer).Throws? then Throws
    else RunOps(Step(d, ops[0], signer).value, ops[1..], signer)
  }

  /** No operation of the run spends a deposit that is closed. */
  predicate SpendsOnlyOpen(d: Deposit, ops: seq<Op>, signer: string)
    decreases |ops|
  {
    ops == [] ||
      ((ops[0].Spend? ==> !d.record.closing.closed) &&
       (Step(d, ops[0], signer).Returns? ==> SpendsOnlyOpen(Step(d, ops[0], signer).value, ops[1..], signer)))
  }

  /* ---------- the life cycle ---------- */

  /** What the flags of a deposit can say together. */
  predicate FlagsOk(r: Record) {
    && !(r.locking.locked && r.closing.closed)
    && (r.settling.settled ==> r.spending.spent || r.closing.closed)
    && (r.spending.spent || r.closing.closed ==> r.conf.confirmed)
  }

  /** The status is a function of the flags, the latest stage first. */
  function StatusOf(r: Record): Status {
    if r.settling.settled then Settled
    else if r.spending.spent then Spent
    else if r.closing.closed then Closed
    else if r.locking.locked then Locked
    else if r.conf.confirmed then Open
    else Registered
  }

  ghost predicate SigsOk(r: Record, pubkey: string) {
    r.base.agentPk == pubkey && forall stage: Status | Flagged(r, stage) :: VerifySig(r, pubkey, stage)
  }

  lemma {:induction false} FlagsRun(d: Deposit, ops: seq<Op>, signer: string)
    requires FlagsOk(d.record) && RunOps(d, ops, signer).Returns?
    ensures FlagsOk(RunOps(d, ops, signer).value.record)
    decreases |ops|
  {
    if ops != [] {
      FlagsRun(Step(d, ops[0], signer).value, ops[1..], signer);
    }
  }

  lemma CycleStep(d: Deposit, op: Op, pubkey: string)
    requires FlagsOk(d.record) && SigsOk(d.record, pubkey) && d.record.status == StatusOf(d.record)
    requires Step(d, op, pubkey).Returns? && (op.Spend? ==> !d.record.closing.closed)
    ensures var r := Step(d, op, pubkey).value.record;
            FlagsOk(r) && SigsOk(r, pubkey) && r.status == StatusOf(r)
  {
    var r := Step(d, op, pubkey).value.record;
    forall stage: Status | Flagged(r, stage) ensures VerifySig(r, pubkey, stage) {
      if Flagged(d.record, stage) {
        assert VerifySig(d.record, pubkey, stage);
      }
    }
  }

  lemma {:induction false} CycleRun(d: Deposit, ops: seq<Op>, pubkey: string)
    requires FlagsOk(d.record) && SigsOk(d.record, pubkey) && d.record.status == StatusOf(d.record)
    requires RunOps(d, ops, pubkey).Returns? && SpendsOnlyOpen(d, ops, pubkey)
    ensures var r := RunOps(d, ops, pubkey).value.record;
            FlagsOk(r) && SigsOk(r, pubkey) && r.status == StatusOf(r)
    decreases |ops|
  {
    if ops != [] {
      CycleStep(d, ops[0], pubkey);
      CycleRun(Step(d, ops[0], pubkey).value, ops[1..], pubkey);
    }
  }

  /** Deposit life cycle. Over every run: locked and closed never coincide, settled implies
      spent or closed, and these imply confirmed. If no closed deposit is spent along the way,
      the status is a function of the flags, and the signature of every stage still flagged
      verifies on the final record, also after any number of releases and new locks. */
  lemma DepositLifeCycle(base: Base, ops: seq<Op>)
    requires RunOps(Create(base, base.agentPk), ops, base.agentPk).Returns?
    ensures var d := Create(base, base.agentPk);
            var r := RunOps(d, ops, base.agentPk).value.record;
            && FlagsOk(r)
            && (SpendsOnlyOpen(d, ops, base.agentPk) ==> SigsOk(r, base.agentPk) && r.status == StatusOf(r))
  {
    var d := Create(base, base.agentPk);
    FlagsRun(d, ops, base.agentPk);
    assert SigsOk(d.record, base.agentPk) by {
      forall stage: Status | Flagged(d.record, stage) ensures VerifySig(d.record, base.agentPk, stage) {
        assert stage == Registered;
      }
    }
    if SpendsOnlyOpen(d, ops, base.agentPk) {
      CycleRun(d, ops, base.agentPk);
    }
  }

  /** The exception, exactly: an accepted spend keeps every flagged signature valid if and only
      if the deposit was not closed; the closed view shows the spend. */
  lemma SpendKeepsSignatures(d: Deposit, txhex: string, txid: string, at: int)
    requires FlagsOk(d.record) && SigsOk(d.record, d.record.base.agentPk)
    requires d.record.status == StatusOf(d.record)
    requires Step(d, Spend(txhex, txid, at), d.record.base.agentPk).Returns?
    ensures SigsOk(Step(d, Spend(txhex, txid, at), d.record.base.agentPk).value.record, d.record.base.agentPk)
       <==> !d.record.closing.closed
  {
    var op, pubkey := Spend(txhex, txid, at), d.record.base.agentPk;
    var r := Step(d, op, pubkey).value.record;
    if d.record.closing.closed {
      assert VerifySig(d.record, pubkey, Closed);
      assert Flagged(r, Closed) && View(r, Closed).value.spending != View(d.record, Closed).value.spending;
      assert !VerifySig(r, pubkey, Closed);
    } else {
      CycleStep(d, op, pubkey);
    }
  }

  /* ---------- which operations are accepted, and what they leave ---------- */

  /** Which operation a deposit accepts, exactly, by its flags. */
  lemma AcceptedExactly(d: Deposit, op: Op, signer: string)
    ensures var r := d.record;
            var (confirmed, locked) := (r.conf.confirmed, r.locking.locked);
            var (closed, spent) := (r.closing.closed, r.spending.spent);
            Step(d, op, signer).Returns? <==>
              match op
              case Confirm(conf) => !confirmed && conf.Some?
              case Close(_, _, _) => confirmed && !locked && !closed && !spent
              case Lock(_, _) => !locked && !closed && !spent
              case Release(_) => locked && !closed && !spent
              case Spend(_, _, _) => confirmed && !spent
              case Settle(conf) => confirmed && (closed || spent) && conf.Some?
  {
  }

  /** A confirmation is recorded once and for all, with the term it starts, and never again. */
  lemma {:induction false} ConfirmedForGood(d: Deposit, ops: seq<Op>, signer: string)
    requires d.record.conf.confirmed && RunOps(d, ops, signer).Returns?
    ensures RunOps(d, ops, signer).value.record.conf == d.record.conf
    ensures forall op | op in ops :: !op.Confirm?
    decreases |ops|
  {
    if ops != [] {
      ConfirmedForGood(Step(d, ops[0], signer).value, ops[1..], signer);
      assert forall op | op in ops :: op == ops[0] || op in ops[1..];
    }
  }

  lemma ConfirmRecords(d: Deposit, conf: TxConf, ops: seq<Op>, signer: string)
    requires Step(d, Confirm(Some(conf)), signer).Returns?
    requires RunOps(Step(d, Confirm(Some(conf)), signer).value, ops, signer).Returns?
    ensures RunOps(Step(d, Confirm(Some(conf)), signer).value, ops, signer).value.record.conf
         == Confirming(true, Some(conf.blockTime), Some(conf.blockHash), Some(conf.blockHeight),
                       Some(conf.blockTime + d.record.base.locktime))
  {
    ConfirmedForGood(Step(d, Confirm(Some(conf)), signer).value, ops, signer);
  }

  lemma {:induction false} LockStays(d: Deposit, ops: seq<Op>, signer: string)
    requires d.record.locking.locked && RunOps(d, ops, signer).Returns? && forall op | op in ops :: !op.Release?
    ensures RunOps(d, ops, signer).value.record.locking == d.record.locking
    ensures forall op | op in ops :: !op.Lock? && !op.Close?
    decreases |ops|
  {
    if ops != [] {
      assert ops[0] in ops;
      LockStays(Step(d, ops[0], signer).value, ops[1..], signer);
      assert forall op | op in ops :: op == ops[0] || op in ops[1..];
    }
  }

  /** A lock stores its covenant, and until a release the deposit holds it, and is neither locked
      again nor closed. */
  lemma LockHolds(d: Deposit, covenant: string, at: int, ops: seq<Op>, signer: string)
    requires Step(d, Lock(covenant, at), signer).Returns? && forall op | op in ops :: !op.Release?
    requires RunOps(Step(d, Lock(covenant, at), signer).value, ops, signer).Returns?
    ensures var r := RunOps(Step(d, Lock(covenant, at), signer).value, ops, signer).value.record;
            r.locking.locked && r.locking.covenant == Some(covenant) && r.locking.lockedAt == Some(at)
    ensures forall op | op in ops :: !op.Lock? && !op.Close?
  {
    LockStays(Step(d, Lock(covenant, at), signer).value, ops, signer);
  }

  /** A release takes the covenant and the lock's signature away. */
  lemma ReleaseClears(d: Deposit, at: int, signer: string)
    requires Step(d, Release(at), signer).Returns?
    ensures var r := Step(d, Release(at), signer).value.record;
            && r.locking == INIT_LOCK_STATE && r.status == StatusOf(r.(settling := INIT_SETTLE_STATE))
            && r.conf == d.record.conf && r.base == d.record.base
  {
  }

  lemma {:induction false} CloseStays(d: Deposit, ops: seq<Op>, signer: string)
    requires d.record.closing.closed && RunOps(d, ops, signer).Returns?
    ensures RunOps(d, ops, signer).value.record.closing == d.record.closing
    ensures forall op | op in ops :: !op.Lock? && !op.Release? && !op.Close?
    decreases |ops|
  {
    if ops != [] {
      CloseStays(Step(d, ops[0], signer).value, ops[1..], signer);
      assert forall op | op in ops :: op == ops[0] || op in ops[1..];
    }
  }

  /** A close is for good: its return transaction stays on record, and nothing locks, releases or
      closes the deposit any more. */
  lemma CloseIsFinal(d: Deposit, txhex: string, txid: string, at: int, ops: seq<Op>, signer: string)
    requires Step(d, Close(txhex, txid, at), signer).Returns?
    requires RunOps(Step(d, Close(txhex, txid, at), signer).value, ops, signer).Returns?
    ensures var r := RunOps(Step(d, Close(txhex, txid, at), signer).value, ops, signer).value.record;
            && r.closing.closed && r.closing.closedAt == Some(at)
            && r.closing.returnTxhex == Some(txhex) && r.closing.returnTxid == Some(txid)
    ensures forall op | op in ops :: !op.Lock? && !op.Release? && !op.Close?
  {
    CloseStays(Step(d, Close(txhex, txid, at), signer).value, ops, signer);
  }

  lemma {:induction false} SpendStays(d: Deposit, ops: seq<Op>, signer: string)
    requires d.record.spending.spent && RunOps(d, ops, signer).Returns?
    ensures var r := RunOps(d, ops, signer).value.record;
            r.spending == d.record.spending && r.locking == d.record.locking && r.closing == d.record.closing
    ensures forall op | op in ops :: op.Confirm? || op.Settle?
    decreases |ops|
  {
    if ops != [] {
      SpendStays(Step(d, ops[0], signer).value, ops[1..], signer);
      assert forall op | op in ops :: op == ops[0] || op in ops[1..];
    }
  }

  /** So is a spend; only a settlement can follow it. */
  lemma SpendIsFinal(d: Deposit, txhex: string, txid: string, at: int, ops: seq<Op>, signer: string)
    requires Step(d, Spend(txhex, txid, at), signer).Returns?
    requires RunOps(Step(d, Spend(txhex, txid, at), signer).value, ops, signer).Returns?
    ensures var r := RunOps(Step(d, Spend(txhex, txid, at), signer).value, ops, signer).value.record;
            && r.spending.spent && r.spending.spentAt == Some(at)
            && r.spending.spentTxhex == Some(txhex) && r.spending.spentTxid == Some(txid)
            && r.locking == d.record.locking && r.closing == d.record.closing
    ensures forall op | op in ops :: op.Settle?
  {
    var spent := Step(d, Spend(txhex, txid, at), signer).value;
    SpendStays(spent, ops, signer);
    ConfirmedForGood(spent, ops, signer);
  }

  /** What a settlement records. */
  lemma SettleRecords(d: Deposit, conf: TxConf, signer: string)
    requires Step(d, Settle(Some(conf)), signer).Returns?
    ensures var r := Step(d, Settle(Some(conf)), signer).value.record;
            && r.settling.settled && r.settling.settledAt == Some(conf.blockTime)
            && r.settling.spentBlock == Some(conf.blockHash) && r.settling.spentHeight == Some(conf.blockHeight)
            && r.spending == d.record.spending && r.closing == d.record.closing && r.locking == d.record.locking
  {
  }

  /** A signature binds: what verifies with it agrees with the record that was signed on
      everything its stage is about. */
  lemma SignatureBinds(r: Record, s: Record, signer: string, pubkey: string, stage: Status)
    requires VerifySig(r, pubkey, stage) && StoredProof(r, stage) == Notarize(s, signer, stage)
    ensures r.base == s.base && signer == pubkey == r.base.agentPk
    ensures stage.Locked? ==>
              && r.locking.(lockedSig := None) == s.locking.(lockedSig := None)
              && r.closing == s.closing && r.createdSig == s.createdSig
    ensures stage.Closed? ==>
              && r.closing.(closedSig := None) == s.closing.(closedSig := None)
              && r.conf == s.conf && r.locking == s.locking && r.spending == s.spending && r.createdSig == s.createdSig
    ensures stage.Spent? ==>
              && r.spending.(spentSig := None) == s.spending.(spentSig := None)
              && r.conf == s.conf && r.locking == s.locking && r.closing == s.closing && r.createdSig == s.createdSig
    ensures stage.Settled? ==>
              && r.settling.(settledSig := None) == s.settling.(settledSig := None) && r.conf == s.conf
              && r.locking == s.locking && r.closing == s.closing && r.spending == s.spending
  {
    assert View(r, stage) == View(s, stage);
  }
}
