/** From the machine's output to the payout: the contract closed with a machine is settled by
    paying whom its proposal lists under the machine's output. */
module Endings {
  import opened Basics
  import opened Sorting
  import opened Contracts
  import opened Funding
  import opened Settlements
  import Cvm
  import Traces
  import Outcomes
  import Guards

  /** What the contract sees of a machine that was set up under this machine id. */
  function VmDataOf(m: Cvm.Machine, vmid: Hash): VmData {
    VmData(m.activeAt, m.closed, m.closedAt, HeadHash(m.head), m.output, vmid)
  }

  /** The machine runs on the path names of the contract's proposal. */
  predicate RunsFor(enc: Encoding, b: Base, cfg: Cvm.Config) {
    cfg.pathnames == PathNames(enc.byName, b.terms.paths)
  }

  /** An output is one of the machine's paths. */
  lemma OutputIsPath(cfg: Cvm.Config, rs: seq<Traces.Request>)
    requires Traces.Run(cfg, rs).Returns? && Distinct(cfg.pathnames)
    ensures var m := Traces.Run(cfg, rs).value;
            && (m.closed ==> m.closedAt.Some?)
            && (m.output.Some? ==> m.closed && m.output.value in cfg.pathnames)
  {
    var m := Traces.Run(cfg, rs).value;
    Outcomes.OutcomeRun(cfg, rs);
    Guards.ShapedRun(cfg, rs);
    if m.output.Some? {
      var e :| e in m.paths && e.name == m.output.value;
      var i :| 0 <= i < |m.paths| && m.paths[i] == e;
      assert m.paths[i].name == cfg.pathnames[i];
    }
  }

  /** The end of it all. Take a machine that any run reaches for this contract's proposal, and
      close the contract with it, and let any later operations run. The contract can be closed if
      and only if it was activated and the machine is closed. It can be settled if and only if
      the machine has an output and every deposit's covenant covers that path, and the settlement
      then pays exactly what the proposal lists under that path, and its payments and fees. */
  lemma SettlesTheOutput(
    enc: Encoding, cfg: Cvm.Config, rs: seq<Traces.Request>, c: Contract, vmid: Hash, ops: seq<Op>,
    deposits: seq<Deposit>, signer: string)
    requires Traces.Run(cfg, rs).Returns? && WellMade(enc, c.record.base) && RunsFor(enc, c.record.base, cfg)
    requires TotalPreorder(enc.byName) && TotalPreorder(enc.byPayment) && InOrder(ops, 5)
    ensures var m := Traces.Run(cfg, rs).value;
            var closed := Step(c, Close(VmDataOf(m, vmid)), signer);
            && (closed.Returns? <==> c.record.activation.activated && m.closed)
            && (closed.Returns? && RunOps(closed.value, ops, signer).Returns? ==>
                  var r := RunOps(closed.value, ops, signer).value.record;
                  && r.base == c.record.base
                  && VerifyClose(r, VmDataOf(m, vmid))
                  && (SettlementTx(r, deposits).Returns?
                      <==> m.output.Some? && forall d | d in deposits :: Covers(d, m.output.value))
                  && (SettlementTx(r, deposits).Returns? ==>
                        var b := r.base;
                        && m.output.Some?
                        && PaysExactly(enc.byPayment, SettlementTx(r, deposits).value.vout, m.output.value,
                                       b.terms.paths, b.terms.payments + b.fees)))
  {
    hide RunOps, InOrder, SettlementTx, Covers, PaysExactly, PathNames, Step, WellMade, VerifyClose;
    hide Traces.Run, Traces.ServeAll;
    var m := Traces.Run(cfg, rs).value;
    var vm := VmDataOf(m, vmid);
    var closed := Step(c, Close(vm), signer);
    PathNamesExactly(enc.byName, c.record.base.terms.paths);
    OutputIsPath(cfg, rs);
    CloseExactly(c, vm, ops, signer, vm);
    if closed.Returns? && RunOps(closed.value, ops, signer).Returns? {
      CloseKeepsBase(c, vm, signer);
      BaseKept(closed.value, ops, signer);
      SettlesFor(enc, RunOps(closed.value, ops, signer).value.record, deposits);
    }
  }

  lemma SettlesFor(enc: Encoding, r: Record, deposits: seq<Deposit>)
    requires WellMade(enc, r.base) && TotalPreorder(enc.byName) && TotalPreorder(enc.byPayment) && r.closing.closed
    requires r.closing.machineVout.Some? ==> r.closing.machineVout.value in PathNames(enc.byName, r.base.terms.paths)
    ensures SettlementTx(r, deposits).Returns?
       <==> r.closing.machineVout.Some? && forall d | d in deposits :: Covers(d, r.closing.machineVout.value)
    ensures SettlementTx(r, deposits).Returns? ==>
              && r.closing.machineVout.Some?
              && PaysExactly(enc.byPayment, SettlementTx(r, deposits).value.vout, r.closing.machineVout.value,
                             r.base.terms.paths, r.base.terms.payments + r.base.fees)
  {
    hide SettlementTx, Covers, PaysExactly, PathNames, SpendTemplates, SignedFor;
    PathNamesExactly(enc.byName, r.base.terms.paths);
    SettledExactly(r, deposits);
    if r.closing.machineVout.Some? {
      NamedTemplate(enc, r.base, r.closing.machineVout.value);
    }
    if SettlementTx(r, deposits).Returns? {
      PaidFor(enc, r, deposits);
    }
  }

  lemma NamedTemplate(enc: Encoding, b: Base, name: string)
    requires WellMade(enc, b) && TotalPreorder(enc.byName) && name in PathNames(enc.byName, b.terms.paths)
    ensures exists t :: t in b.outputs && t.name == name
  {
    hide PathNames, SpendTemplates;
    PathNamesExactly(enc.byName, b.terms.paths);
    TemplateNames(enc, b.terms, b.fees);
  }

  lemma PaidFor(enc: Encoding, r: Record, deposits: seq<Deposit>)
    requires WellMade(enc, r.base) && TotalPreorder(enc.byPayment) && SettlementTx(r, deposits).Returns?
    ensures r.closing.machineVout.Some?
    ensures PaysExactly(enc.byPayment, SettlementTx(r, deposits).value.vout, r.closing.machineVout.value,
                        r.base.terms.paths, r.base.terms.payments + r.base.fees)
  {
    hide SettlementTx, PaysExactly, SpendTemplates;
    var b := r.base;
    PaysTemplate(r, deposits);
    var t :| t in b.outputs && t.vout == SettlementTx(r, deposits).value.vout && t.name == r.closing.machineVout.value;
    TemplatesPayExactly(enc, b.terms, b.fees, t);
  }

  lemma CloseKeepsBase(c: Contract, vm: VmData, signer: string)
    requires Step(c, Close(vm), signer).Returns?
    ensures Step(c, Close(vm), signer).value.record.base == c.record.base
  {
  }

  /* ---------- the spend ---------- */

  /** `verify_contract_spending`, with the digest of a transaction as a parameter. */
  predicate VerifySpending(r: Record, funds: seq<Deposit>, txidOf: (seq<Deposit>, seq<Payment>) -> string) {
    && r.closing.closed && r.spending.spent && r.closing.machineVout.Some?
    && var i := FindTemplate(r.base.outputs, r.closing.machineVout.value);
       i < |r.base.outputs| && r.spending.spentTxid == Some(txidOf(funds, r.base.outputs[i].vout))
  }

  /** Which recorded spend the verifier accepts, exactly, also after the settlement: the
      transaction of these funds to the template of the contract's output. */
  lemma SpendingExactly(
    c: Contract, txhex: string, txid: string, at: int, ops: seq<Op>, signer: string,
    funds: seq<Deposit>, txidOf: (seq<Deposit>, seq<Payment>) -> string, t: SpendTemplate)
    requires InOrder(ops, 6) && RunOps(Step(c, Spend(txhex, txid, at), signer).value, ops, signer).Returns?
    requires c.record.closing.closed && c.record.closing.machineVout == Some(t.name)
    requires t in c.record.base.outputs
    requires forall u | u in c.record.base.outputs && u.name == t.name :: u == t
    ensures var r := RunOps(Step(c, Spend(txhex, txid, at), signer).value, ops, signer).value.record;
            VerifySpending(r, funds, txidOf) <==> txid == txidOf(funds, t.vout)
  {
    SpendRecords(c, txhex, txid, at, ops, signer);
    BaseKept(Step(c, Spend(txhex, txid, at), signer).value, ops, signer);
    var outputs := c.record.base.outputs;
    var i := FindTemplate(outputs, t.name);
    var k :| 0 <= k < |outputs| && outputs[k] == t;
    assert i <= k && outputs[i] in outputs;
  }
}
