/** From a proposal to its settlement: the contract made from it, the transaction that settles
    it, and what that leaves for the miners. */
module Settlements {
  import opened Basics
  import opened Sorting
  import opened Contracts
  import opened Funding

  /* ---------- making a contract (contract/data.ts) ---------- */

  /** The agent's settings, with the digests and the deadline it computes. */
  datatype Agent = Agent(
    pubkey: string, enc: Encoding, propId: Proposal -> string,
    cid: (seq<SpendTemplate>, string, int) -> string, deadline: (Proposal, int) -> int)

  /** The fixed part of `create_contract`; a proposal without paths has no largest template. */
  function CreateBase(
    agent: Agent, proposal: Proposal, endorsements: seq<string>, createdAt: int, feerate: int, fees: seq<Payment>)
    : Call<Base>
  {
    var outputs := SpendTemplates(agent.enc, proposal, fees);
    if outputs == [] then Throws
    else
      var propId := agent.propId(proposal);
      Returns(Base(
        agentPk := agent.pubkey, cid := agent.cid(outputs, propId, createdAt), createdAt := createdAt,
        deadlineAt := agent.deadline(proposal, createdAt), endorsements := endorsements, feerate := feerate,
        fees := fees, moderator := proposal.moderator, outputs := outputs, propId := propId,
        subtotal := proposal.value + PayTotal(fees), terms := proposal, txBsize := MaxVoutSize(outputs),
        vinTxfee := feerate * SPEND_TXIN_SIZE))
  }

  /** One template for exactly the path names. */
  lemma TemplateNames(enc: Encoding, proposal: Proposal, fees: seq<Payment>)
    ensures forall t | t in SpendTemplates(enc, proposal, fees) :: exists p :: p in proposal.paths && p.path == t.name
    ensures forall p | p in proposal.paths :: exists t :: t in SpendTemplates(enc, proposal, fees) && t.name == p.path
  {
    var (outputs, names) := (SpendTemplates(enc, proposal, fees), PathNames(enc.byName, proposal.paths));
    NamesOnce(proposal.paths);
    SortMembers(enc.byName, UniqueNames(proposal.paths));
    TemplatesOf(enc, names, proposal.paths, proposal.payments + fees);
    hide UniqueNames, Templates, PathVouts, Sort;
    forall t | t in outputs ensures exists p :: p in proposal.paths && p.path == t.name {
      var i :| 0 <= i < |outputs| && outputs[i] == t;
      assert names[i] == t.name && names[i] in names;
    }
    forall p | p in proposal.paths ensures exists t :: t in outputs && t.name == p.path {
      assert p.path in names;
      var i :| 0 <= i < |names| && names[i] == p.path;
      assert outputs[i] in outputs && outputs[i].name == p.path;
    }
  }

  /** Every proposal with a path makes a contract, well made, with a template for exactly its
      path names; one without makes none. */
  lemma CreatedWellMade(
    agent: Agent, proposal: Proposal, endorsements: seq<string>, createdAt: int, feerate: int, fees: seq<Payment>)
    ensures var base := CreateBase(agent, proposal, endorsements, createdAt, feerate, fees);
            && (base.Returns? <==> proposal.paths != [])
            && (base.Returns? ==>
                  && WellMade(agent.enc, base.value)
                  && base.value.terms == proposal && base.value.feerate == feerate && base.value.fees == fees
                  && base.value.agentPk == agent.pubkey
                  && (forall t | t in base.value.outputs :: exists p :: p in proposal.paths && p.path == t.name)
                  && forall p | p in proposal.paths :: exists t :: t in base.value.outputs && t.name == p.path)
  {
    hide SpendTemplates, MaxVoutSize;
    var outputs := SpendTemplates(agent.enc, proposal, fees);
    TemplateNames(agent.enc, proposal, fees);
    if proposal.paths != [] {
      assert proposal.paths[0] in proposal.paths;
    }
    assert outputs != [] ==> outputs[0] in outputs;
  }

  /* ---------- the settlement (contract/util.ts) ---------- */

  /** Both parties' shares on one deposit, for one template of one contract; the combined
      signature is injective. */
  datatype InputSig = InputSig(
    cid: string, outputs: seq<SpendTemplate>, dpid: string, vout: seq<Payment>, share: string)

  datatype Vin = Vin(deposit: Deposit, signature: InputSig)

  datatype Tx = Tx(vin: seq<Vin>, vout: seq<Payment>)

  /** `get_spend_template`'s find; the length of the list stands for undefined. */
  function FindTemplate(outputs: seq<SpendTemplate>, name: string): (i: nat)
    ensures i <= |outputs| && (i < |outputs| ==> outputs[i].name == name)
    ensures forall j | 0 <= j < i :: outputs[j].name != name
  {
    IndexOf((t: SpendTemplate) => t.name, outputs, name)
  }

  /** `get_covenant_psig`'s find. */
  function FindPsig(psigs: seq<Psig>, path: string): (i: nat)
    ensures i <= |psigs| && (i < |psigs| ==> psigs[i].path == path)
    ensures forall j | 0 <= j < i :: psigs[j].path != path
  {
    IndexOf((p: Psig) => p.path, psigs, path)
  }

  /** One deposit's input; without a covenant that covers the path it throws. */
  function SettleInput(b: Base, t: SpendTemplate, d: Deposit): Call<Vin> {
    if d.covenant.None? || FindPsig(d.covenant.value, t.name) == |d.covenant.value| then Throws
    else
      var psig := d.covenant.value[FindPsig(d.covenant.value, t.name)];
      Returns(Vin(d, InputSig(b.cid, b.outputs, d.dpid, t.vout, psig.share)))
  }

  function SettleInputs(b: Base, t: SpendTemplate, deposits: seq<Deposit>): Call<seq<Vin>> {
    if deposits == [] then Returns([])
    else
      var n := |deposits| - 1;
      match (SettleInputs(b, t, deposits[..n]), SettleInput(b, t, deposits[n]))
      case (Returns(vin), Returns(one)) => Returns(vin + [one])
      case _ => Throws
  }

  function SettlementTx(r: Record, deposits: seq<Deposit>): Call<Tx> {
    if !r.closing.closed || r.closing.machineVout.None? then Throws
    else
      var i := FindTemplate(r.base.outputs, r.closing.machineVout.value);
      if i == |r.base.outputs| then Throws
      else
        match SettleInputs(r.base, r.base.outputs[i], deposits)
        case Returns(vin) => Returns(Tx(vin, r.base.outputs[i].vout))
        case Throws => Throws
  }

  lemma {:induction false} ThrowsEarly(b: Base, t: SpendTemplate, deposits: seq<Deposit>, k: nat)
    requires k <= |deposits| && SettleInputs(b, t, deposits[..k]).Throws?
    ensures SettleInputs(b, t, deposits).Throws?
    decreases |deposits| - k
  {
    if k < |deposits| {
      assert deposits[..k + 1][..k] == deposits[..k];
      ThrowsEarly(b, t, deposits, k + 1);
    } else {
      assert deposits[..k] == deposits;
    }
  }

  /** `get_settlement_tx`: one signed input per deposit on top of the chosen template. */
  method GetSettlementTx(r: Record, deposits: seq<Deposit>) returns (tx: Call<Tx>)
    ensures tx == SettlementTx(r, deposits)
  {
    if !r.closing.closed || r.closing.machineVout.None? {
      return Throws;
    }
    var i := FindTemplate(r.base.outputs, r.closing.machineVout.value);
    if i == |r.base.outputs| {
      return Throws;
    }
    var template := r.base.outputs[i];
    var vin: seq<Vin> := [];
    for j := 0 to |deposits|
      invariant SettleInputs(r.base, template, deposits[..j]) == Returns(vin)
    {
      assert deposits[..j + 1][..j] == deposits[..j];
      var one := SettleInput(r.base, template, deposits[j]);
      if one.Throws? {
        ThrowsEarly(r.base, template, deposits, j + 1);
        return Throws;
      }
      vin := vin + [one.value];
    }
    assert deposits[..|deposits|] == deposits;
    return Returns(Tx(vin, template.vout));
  }

  /** A covenant with a share for the path. */
  predicate Covers(d: Deposit, path: string) {
    d.covenant.Some? && exists p :: p in d.covenant.value && p.path == path
  }

  /** Signed with the share the covenant holds for the path, for this contract, deposit and output. */
  predicate SignedFor(b: Base, t: SpendTemplate, d: Deposit, sig: InputSig)
    requires d.covenant.Some?
  {
    && sig.cid == b.cid && sig.outputs == b.outputs && sig.dpid == d.dpid && sig.vout == t.vout
    && Psig(t.name, sig.share) in d.covenant.value
  }

  lemma {:induction false} InputsExactly(b: Base, t: SpendTemplate, deposits: seq<Deposit>)
    ensures var vin := SettleInputs(b, t, deposits);
            && (vin.Returns? <==> forall d | d in deposits :: Covers(d, t.name))
            && (vin.Returns? ==>
                  && |vin.value| == |deposits|
                  && forall i | 0 <= i < |deposits| ::
                       && vin.value[i].deposit == deposits[i] && deposits[i].covenant.Some?
                       && SignedFor(b, t, deposits[i], vin.value[i].signature))
  {
    if deposits != [] {
      var (n, d) := (|deposits| - 1, deposits[|deposits| - 1]);
      InputsExactly(b, t, deposits[..n]);
      InputExactly(b, t, d);
      assert forall x :: x in deposits <==> x in deposits[..n] || x == d by {
        assert deposits == deposits[..n] + [d];
      }
    }
  }

  lemma InputExactly(b: Base, t: SpendTemplate, d: Deposit)
    ensures SettleInput(b, t, d).Returns? <==> Covers(d, t.name)
    ensures SettleInput(b, t, d).Returns? ==>
              && d.covenant.Some? && SettleInput(b, t, d).value.deposit == d
              && SignedFor(b, t, d, SettleInput(b, t, d).value.signature)
  {
    if d.covenant.Some? {
      var i := FindPsig(d.covenant.value, t.name);
      if i < |d.covenant.value| {
        assert d.covenant.value[i] in d.covenant.value;
        assert d.covenant.value[i] == Psig(t.name, d.covenant.value[i].share);
      }
    }
  }

  /** When a contract can be settled, exactly: it is closed on an output that has a template, and
      every deposit's covenant holds a share for that path. Each input then carries the share
      that was given for this path, on this template. */
  lemma SettledExactly(r: Record, deposits: seq<Deposit>)
    ensures SettlementTx(r, deposits).Returns?
       <==> && r.closing.closed && r.closing.machineVout.Some?
            && (exists t :: t in r.base.outputs && t.name == r.closing.machineVout.value)
            && forall d | d in deposits :: Covers(d, r.closing.machineVout.value)
    ensures SettlementTx(r, deposits).Returns? ==>
              var tx := SettlementTx(r, deposits).value;
              && |tx.vin| == |deposits|
              && exists t :: t in r.base.outputs && Some(t.name) == r.closing.machineVout && t.vout == tx.vout
                   && forall i | 0 <= i < |deposits| ::
                        && tx.vin[i].deposit == deposits[i] && deposits[i].covenant.Some?
                        && SignedFor(r.base, t, deposits[i], tx.vin[i].signature)
  {
    if r.closing.closed && r.closing.machineVout.Some? {
      var (outputs, name) := (r.base.outputs, r.closing.machineVout.value);
      var i := FindTemplate(outputs, name);
      if i < |outputs| {
        assert outputs[i] in outputs;
        InputsExactly(r.base, outputs[i], deposits);
      }
    }
  }

  lemma TemplateSizes(enc: Encoding, b: Base)
    requires WellMade(enc, b)
    ensures forall t | t in b.outputs :: enc.sizeOf(t.vout) == t.size <= b.txBsize
  {
    var names := PathNames(enc.byName, b.terms.paths);
    TemplatesOf(enc, names, b.terms.paths, b.terms.payments + b.fees);
    forall t | t in b.outputs ensures enc.sizeOf(t.vout) == t.size {
      var i :| 0 <= i < |b.outputs| && b.outputs[i] == t;
      assert t == Template(enc, names[i], b.terms.paths, b.terms.payments + b.fees);
    }
  }

  lemma PaysTemplate(r: Record, deposits: seq<Deposit>)
    requires SettlementTx(r, deposits).Returns?
    ensures r.closing.machineVout.Some?
    ensures exists t :: t in r.base.outputs && t.vout == SettlementTx(r, deposits).value.vout
                     && t.name == r.closing.machineVout.value
  {
    var i := FindTemplate(r.base.outputs, r.closing.machineVout.value);
    assert r.base.outputs[i] in r.base.outputs;
  }

  /* ---------- what it leaves ---------- */

  function VinTotal(vin: seq<Vin>): int {
    if vin == [] then 0 else VinTotal(vin[..|vin| - 1]) + vin[|vin| - 1].deposit.value
  }

  /** What a transaction leaves to the miner. */
  function MinerFee(tx: Tx): int {
    VinTotal(tx.vin) - PayTotal(tx.vout)
  }

  lemma {:induction false} VinIsTotal(vin: seq<Vin>, deposits: seq<Deposit>)
    requires |vin| == |deposits| && forall i | 0 <= i < |vin| :: vin[i].deposit == deposits[i]
    ensures VinTotal(vin) == Total(deposits)
  {
    if vin != [] {
      var n := |vin| - 1;
      VinIsTotal(vin[..n], deposits[..n]);
      assert deposits == deposits[..n] + [deposits[n]];
      TotalAppend(deposits[..n], [deposits[n]]);
      assert [deposits[n]][1..] == [];
    }
  }

  lemma {:induction false} BaseKept(c: Contract, ops: seq<Op>, signer: string)
    requires RunOps(c, ops, signer).Returns?
    ensures RunOps(c, ops, signer).value.record.base == c.record.base
    decreases |ops|
  {
    if ops != [] {
      BaseKept(Step(c, ops[0], signer).value, ops[1..], signer);
    }
  }

  /** Settlement conserves value and pays its fee. Take a contract whose proposal passed
      `check_payments`, secure it with any deposits, and let any later operations run: whatever
      path the machine chose, the settlement pays out the subtotal and leaves the miner all the
      rest of the funds, at least the fee rate times the recorded size, which no template exceeds. */
  lemma SettlementPaysFee(
    enc: Encoding, c: Contract, deposits: seq<Deposit>, at: int, ops: seq<Op>, signer: string)
    requires WellMade(enc, c.record.base) && CheckPayments(enc, c.record.base.terms)
    requires Step(c, Secure(deposits, at), signer).Returns? && InOrder(ops, 3)
    requires RunOps(Step(c, Secure(deposits, at), signer).value, ops, signer).Returns?
    ensures var r := RunOps(Step(c, Secure(deposits, at), signer).value, ops, signer).value.record;
            var tx := SettlementTx(r, deposits);
            tx.Returns? ==>
              && PayTotal(tx.value.vout) == r.base.subtotal
              && MinerFee(tx.value) == r.funds.fundsConf - r.base.subtotal
              && MinerFee(tx.value) >= r.base.feerate * r.funds.txVsize
              && r.funds.txVsize >= enc.sizeOf(tx.value.vout) + |tx.value.vin| * SPEND_TXIN_SIZE
  {
    hide RunOps, SpendTemplates, InOrder, SettlementTx, Covers;
    var secured := Step(c, Secure(deposits, at), signer).value;
    var b := c.record.base;
    LaterKeeps(secured, ops, signer, 3);
    BaseKept(secured, ops, signer);
    var r := RunOps(secured, ops, signer).value.record;
    TemplatesConserve(enc, b.terms, b.fees);
    FeesFactor(b.feerate, b.txBsize, |deposits|);
    SettledExactly(r, deposits);
    if SettlementTx(r, deposits).Returns? {
      PaysTemplate(r, deposits);
      TemplateSizes(enc, b);
      VinIsTotal(SettlementTx(r, deposits).value.vin, deposits);
    }
  }

  /** The same from the proposal on: any contract made from a checked proposal, through any
      operations before and after it is secured. */
  lemma ProposalPaysFee(
    agent: Agent, proposal: Proposal, endorsements: seq<string>, createdAt: int, feerate: int, fees: seq<Payment>,
    before: seq<Op>, deposits: seq<Deposit>, at: int, after: seq<Op>)
    requires proposal.paths != [] && CheckPayments(agent.enc, proposal) && InOrder(after, 3)
    requires CreateBase(agent, proposal, endorsements, createdAt, feerate, fees).Returns?
    requires var b := CreateBase(agent, proposal, endorsements, createdAt, feerate, fees).value;
             var c := RunOps(Create(b, agent.pubkey), before, agent.pubkey);
             && c.Returns? && Step(c.value, Secure(deposits, at), agent.pubkey).Returns?
             && RunOps(Step(c.value, Secure(deposits, at), agent.pubkey).value, after, agent.pubkey).Returns?
    ensures var b := CreateBase(agent, proposal, endorsements, createdAt, feerate, fees).value;
            var c := RunOps(Create(b, agent.pubkey), before, agent.pubkey).value;
            var r := RunOps(Step(c, Secure(deposits, at), agent.pubkey).value, after, agent.pubkey).value.record;
            var tx := SettlementTx(r, deposits);
            tx.Returns? ==>
              && PayTotal(tx.value.vout) == proposal.value + PayTotal(fees)
              && MinerFee(tx.value) >= feerate * r.funds.txVsize
  {
    hide RunOps, SettlementTx, CreateBase, Step;
    var b := CreateBase(agent, proposal, endorsements, createdAt, feerate, fees).value;
    var c := RunOps(Create(b, agent.pubkey), before, agent.pubkey).value;
    CreatedWellMade(agent, proposal, endorsements, createdAt, feerate, fees);
    BaseKept(Create(b, agent.pubkey), before, agent.pubkey);
    SettlementPaysFee(agent.enc, c, deposits, at, after, agent.pubkey);
    SecureKeepsBase(c, deposits, at, agent.pubkey);
    BaseKept(Step(c, Secure(deposits, at), agent.pubkey).value, after, agent.pubkey);
  }

  lemma SecureKeepsBase(c: Contract, deposits: seq<Deposit>, at: int, signer: string)
    requires Step(c, Secure(deposits, at), signer).Returns?
    ensures Step(c, Secure(deposits, at), signer).value.record.base == c.record.base
  {
  }
}
