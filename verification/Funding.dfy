/** The money: outputs per spending path, running totals against a recount, the quoted
    balance, and what a settlement leaves for the miners. */
module Funding {
  import opened Basics
  import opened Sorting
  import opened Contracts

  /* ---------- outputs per path (lib/proposal.ts, contract/util.ts) ---------- */

  function PayTotal(payments: seq<Payment>): int {
    if payments == [] then 0 else payments[0].value + PayTotal(payments[1..])
  }

  /** The payments of one path. */
  function PathPayments(name: string, paths: seq<PathPayment>): seq<Payment> {
    if paths == [] then []
    else (if paths[0].path == name then [Payment(paths[0].value, paths[0].address)] else [])
         + PathPayments(name, paths[1..])
  }

  /** The path names, once each, in the order the set meets them. */
  function UniqueNames(paths: seq<PathPayment>): seq<string> {
    if paths == [] then []
    else
      var n := |paths| - 1;
      var names := UniqueNames(paths[..n]);
      if paths[n].path in names then names else names + [paths[n].path]
  }

  function PathNames(leq: (string, string) -> bool, paths: seq<PathPayment>): seq<string> {
    Sort(leq, UniqueNames(paths))
  }

  function PathVouts(leq: (Payment, Payment) -> bool, name: string, paths: seq<PathPayment>, payments: seq<Payment>)
    : seq<Payment>
  {
    Sort(leq, PathPayments(name, paths)) + Sort(leq, payments)
  }

  /** How the code orders names and payments, and how many bytes a list of outputs takes. */
  datatype Encoding = Encoding(
    byName: (string, string) -> bool, byPayment: (Payment, Payment) -> bool, sizeOf: seq<Payment> -> nat)

  function Template(enc: Encoding, name: string, paths: seq<PathPayment>, payments: seq<Payment>): SpendTemplate {
    var vout := PathVouts(enc.byPayment, name, paths, payments);
    SpendTemplate(name, vout, enc.sizeOf(vout))
  }

  function Templates(enc: Encoding, names: seq<string>, paths: seq<PathPayment>, payments: seq<Payment>)
    : seq<SpendTemplate>
  {
    if names == [] then []
    else Templates(enc, names[..|names| - 1], paths, payments) + [Template(enc, names[|names| - 1], paths, payments)]
  }

  function SpendTemplates(enc: Encoding, proposal: Proposal, fees: seq<Payment>): seq<SpendTemplate> {
    Templates(enc, PathNames(enc.byName, proposal.paths), proposal.paths, proposal.payments + fees)
  }

  /** `get_path_vouts`: sorts the shared list of payments in place. */
  method GetPathVouts(enc: Encoding, name: string, paths: seq<PathPayment>, payments: array<Payment>)
    returns (vout: seq<Payment>)
    modifies payments
    ensures payments[..] == Sort(enc.byPayment, old(payments[..]))
    ensures vout == PathVouts(enc.byPayment, name, paths, old(payments[..]))
  {
    var sorted := Sort(enc.byPayment, payments[..]);
    SortMembers(enc.byPayment, payments[..]);
    forall i | 0 <= i < payments.Length {
      payments[i] := sorted[i];
    }
    return Sort(enc.byPayment, PathPayments(name, paths)) + payments[..];
  }

  lemma SortTwice(enc: Encoding, payments: seq<Payment>)
    requires TotalPreorder(enc.byPayment)
    ensures Sort(enc.byPayment, Sort(enc.byPayment, payments)) == Sort(enc.byPayment, payments)
  {
    SortSorts(enc.byPayment, payments);
    SortOfSorted(enc.byPayment, Sort(enc.byPayment, payments));
  }

  /** `create_spend_templates`: the same list of payments serves every path, sorted again each time. */
  method CreateSpendTemplates(enc: Encoding, proposal: Proposal, fees: seq<Payment>)
    returns (outputs: seq<SpendTemplate>)
    requires TotalPreorder(enc.byPayment)
    ensures outputs == SpendTemplates(enc, proposal, fees)
  {
    hide Sort, TotalPreorder;
    var names := PathNames(enc.byName, proposal.paths);
    var total := proposal.payments + fees;
    var payments := new Payment[|total|](i requires 0 <= i < |total| => total[i]);
    assert payments[..] == total;
    SortTwice(enc, total);
    outputs := [];
    for i := 0 to |names|
      invariant payments[..] == total || payments[..] == Sort(enc.byPayment, total)
      invariant outputs == Templates(enc, names[..i], proposal.paths, total)
    {
      assert names[..i + 1][..i] == names[..i];
      var vout := GetPathVouts(enc, names[i], proposal.paths, payments);
      assert vout == PathVouts(enc.byPayment, names[i], proposal.paths, total);
      outputs := outputs + [SpendTemplate(names[i], vout, enc.sizeOf(vout))];
    }
    assert names[..|names|] == names;
  }

  datatype PathTotal = PathTotal(path: string, total: int)

  function TotalsOf(names: seq<string>, paths: seq<PathPayment>): seq<PathTotal> {
    if names == [] then []
    else
      var last := names[|names| - 1];
      TotalsOf(names[..|names| - 1], paths) + [PathTotal(last, PayTotal(PathPayments(last, paths)))]
  }

  /** `get_path_total`. */
  method GetPathTotal(enc: Encoding, paths: seq<PathPayment>) returns (totals: seq<PathTotal>)
    ensures totals == TotalsOf(PathNames(enc.byName, paths), paths)
  {
    var names := PathNames(enc.byName, paths);
    totals := [];
    for i := 0 to |names|
      invariant totals == TotalsOf(names[..i], paths)
    {
      assert names[..i + 1][..i] == names[..i];
      totals := totals + [PathTotal(names[i], PayTotal(PathPayments(names[i], paths)))];
    }
    assert names[..|names|] == names;
  }

  /** The sums `check_payments` tests. */
  predicate CheckPayments(enc: Encoding, proposal: Proposal) {
    && PayTotal(proposal.payments) <= proposal.value
    && forall t | t in TotalsOf(PathNames(enc.byName, proposal.paths), proposal.paths) ::
         t.total + PayTotal(proposal.payments) == proposal.value
  }

  /* ---------- conservation ---------- */

  lemma {:induction false} PayTotalAppend(a: seq<Payment>, b: seq<Payment>)
    ensures PayTotal(a + b) == PayTotal(a) + PayTotal(b)
  {
    if a == [] {
      assert a + b == b;
    } else {
      assert (a + b)[1..] == a[1..] + b;
      PayTotalAppend(a[1..], b);
    }
  }

  lemma {:induction false} PayTotalInsert(leq: (Payment, Payment) -> bool, x: Payment, xs: seq<Payment>)
    ensures PayTotal(Insert(leq, x, xs)) == x.value + PayTotal(xs)
  {
    if xs == [] || leq(x, xs[0]) {
      assert ([x] + xs)[1..] == xs;
    } else {
      PayTotalInsert(leq, x, xs[1..]);
      assert ([xs[0]] + Insert(leq, x, xs[1..]))[1..] == Insert(leq, x, xs[1..]);
    }
  }

  lemma {:induction false} PayTotalSort(leq: (Payment, Payment) -> bool, xs: seq<Payment>)
    ensures PayTotal(Sort(leq, xs)) == PayTotal(xs)
  {
    if xs != [] {
      PayTotalSort(leq, xs[1..]);
      PayTotalInsert(leq, xs[0], Sort(leq, xs[1..]));
    }
  }

  lemma TemplateTotal(enc: Encoding, name: string, paths: seq<PathPayment>, payments: seq<Payment>)
    ensures PayTotal(Template(enc, name, paths, payments).vout)
         == PayTotal(PathPayments(name, paths)) + PayTotal(payments)
  {
    PayTotalSort(enc.byPayment, PathPayments(name, paths));
    PayTotalSort(enc.byPayment, payments);
    PayTotalAppend(Sort(enc.byPayment, PathPayments(name, paths)), Sort(enc.byPayment, payments));
  }

  lemma {:induction false} TemplatesOf(
    enc: Encoding, names: seq<string>, paths: seq<PathPayment>, payments: seq<Payment>)
    ensures var ts, totals := Templates(enc, names, paths, payments), TotalsOf(names, paths);
            && |ts| == |totals| == |names|
            && forall i | 0 <= i < |names| ::
                 && ts[i] == Template(enc, names[i], paths, payments) && totals[i].path == names[i]
                 && PayTotal(ts[i].vout) == totals[i].total + PayTotal(payments)
  {
    hide Template, PathPayments, PayTotal;
    if names != [] {
      var (front, last) := (names[..|names| - 1], names[|names| - 1]);
      TemplatesOf(enc, front, paths, payments);
      TemplateTotal(enc, last, paths, payments);
      assert forall i | 0 <= i < |front| :: names[i] == front[i];
    }
  }

  /** Value is conserved across the templates, exactly: every path's outputs sum to the
      subtotal, the proposal's value plus the server's fees, if and only if every path's total
      plus the proposal's payments is the proposal's value. */
  lemma TemplatesConserve(enc: Encoding, proposal: Proposal, fees: seq<Payment>)
    requires PayTotal(proposal.payments) <= proposal.value
    ensures CheckPayments(enc, proposal)
       <==> forall t | t in SpendTemplates(enc, proposal, fees) :: PayTotal(t.vout) == proposal.value + PayTotal(fees)
  {
    hide Templates, TotalsOf, Sort;
    var names := PathNames(enc.byName, proposal.paths);
    var ts, totals := SpendTemplates(enc, proposal, fees), TotalsOf(names, proposal.paths);
    TemplatesOf(enc, names, proposal.paths, proposal.payments + fees);
    PayTotalAppend(proposal.payments, fees);
    if forall t | t in ts :: PayTotal(t.vout) == proposal.value + PayTotal(fees) {
      forall t | t in totals ensures t.total + PayTotal(proposal.payments) == proposal.value {
        var i :| 0 <= i < |totals| && totals[i] == t;
        assert ts[i] in ts;
      }
    }
    if CheckPayments(enc, proposal) {
      forall t | t in ts ensures PayTotal(t.vout) == proposal.value + PayTotal(fees) {
        var i :| 0 <= i < |ts| && ts[i] == t;
        assert totals[i] in totals;
      }
    }
  }

  /* ---------- who is paid ---------- */

  lemma {:induction false} PathPaymentsExactly(name: string, paths: seq<PathPayment>, y: Payment)
    ensures multiset(PathPayments(name, paths))[y] == multiset(paths)[PathPayment(name, y.value, y.address)]
  {
    if paths != [] {
      PathPaymentsExactly(name, paths[1..], y);
      assert paths == [paths[0]] + paths[1..];
    }
  }

  /** The outputs of one path, in two parts: each in order, the first paying exactly what the
      proposal lists under this path, the second exactly what every path shares. */
  ghost predicate PaysExactly(
    leq: (Payment, Payment) -> bool, vout: seq<Payment>, name: string, paths: seq<PathPayment>, shared: seq<Payment>)
  {
    exists k :: 0 <= k <= |vout|
      && SortedBy(leq, vout[..k]) && SortedBy(leq, vout[k..])
      && (forall y: Payment :: multiset(vout[..k])[y] == multiset(paths)[PathPayment(name, y.value, y.address)])
      && multiset(vout[k..]) == multiset(shared)
  }

  lemma VoutsPayExactly(leq: (Payment, Payment) -> bool, name: string, paths: seq<PathPayment>, shared: seq<Payment>)
    requires TotalPreorder(leq)
    ensures PaysExactly(leq, PathVouts(leq, name, paths, shared), name, paths, shared)
  {
    hide Sort, PathPayments;
    var (own, vout) := (PathPayments(name, paths), PathVouts(leq, name, paths, shared));
    var k := |Sort(leq, own)|;
    assert vout[..k] == Sort(leq, own) && vout[k..] == Sort(leq, shared);
    SortSorts(leq, own);
    SortSorts(leq, shared);
    SortPermutes(leq, own);
    SortPermutes(leq, shared);
    forall y: Payment ensures multiset(vout[..k])[y] == multiset(paths)[PathPayment(name, y.value, y.address)] {
      PathPaymentsExactly(name, paths, y);
    }
  }

  /** Whom each template pays, exactly: every path of the proposal has one template, and it pays
      what the proposal lists under that path, and the proposal's payments and fees. */
  lemma TemplatesPayExactly(enc: Encoding, proposal: Proposal, fees: seq<Payment>, t: SpendTemplate)
    requires TotalPreorder(enc.byPayment) && t in SpendTemplates(enc, proposal, fees)
    ensures PaysExactly(enc.byPayment, t.vout, t.name, proposal.paths, proposal.payments + fees)
  {
    var (names, ts) := (PathNames(enc.byName, proposal.paths), SpendTemplates(enc, proposal, fees));
    TemplatesOf(enc, names, proposal.paths, proposal.payments + fees);
    var i :| 0 <= i < |ts| && ts[i] == t;
    assert t == Template(enc, names[i], proposal.paths, proposal.payments + fees);
    VoutsPayExactly(enc.byPayment, t.name, proposal.paths, proposal.payments + fees);
  }

  lemma {:induction false} NamesOnce(paths: seq<PathPayment>)
    ensures Distinct(UniqueNames(paths))
    ensures forall name :: name in UniqueNames(paths) <==> exists p :: p in paths && p.path == name
  {
    if paths != [] {
      var n := |paths| - 1;
      NamesOnce(paths[..n]);
      assert forall p :: p in paths <==> p in paths[..n] || p == paths[n] by {
        assert paths == paths[..n] + [paths[n]];
      }
    }
  }

  lemma {:induction false} DistinctMultiset(names: seq<string>)
    ensures Distinct(names) <==> forall x :: multiset(names)[x] <= 1
  {
    if names != [] {
      var rest := names[1..];
      DistinctMultiset(rest);
      assert names == [names[0]] + rest;
      if Distinct(names) {
        assert forall i | 0 <= i < |rest| :: rest[i] == names[i + 1];
        assert names[0] !in rest;
        assert multiset(rest)[names[0]] == 0;
      } else {
        var x := names[0];
        if x !in rest {
          x :| multiset(rest)[x] > 1;
        }
        assert multiset(names)[x] > 1;
      }
    }
  }

  /** The path names: exactly those the proposal uses, once each, in order. */
  lemma PathNamesExactly(leq: (string, string) -> bool, paths: seq<PathPayment>)
    requires TotalPreorder(leq)
    ensures Distinct(PathNames(leq, paths)) && SortedBy(leq, PathNames(leq, paths))
    ensures forall name :: name in PathNames(leq, paths) <==> exists p :: p in paths && p.path == name
  {
    NamesOnce(paths);
    SortSorts(leq, UniqueNames(paths));
    SortPermutes(leq, UniqueNames(paths));
    SortMembers(leq, UniqueNames(paths));
    DistinctMultiset(UniqueNames(paths));
    DistinctMultiset(PathNames(leq, paths));
  }

  /* ---------- the contract's constants ---------- */

  function MaxVoutSize(outputs: seq<SpendTemplate>): (size: nat)
    requires outputs != []
    ensures forall t | t in outputs :: t.size <= size
    ensures exists t :: t in outputs && t.size == size
  {
    if |outputs| == 1 then outputs[0].size
    else
      var rest := MaxVoutSize(outputs[1..]);
      if outputs[0].size > rest then outputs[0].size else rest
  }

  /** What `create_contract` derives from the request: the base a contract starts with. */
  predicate WellMade(enc: Encoding, b: Base) {
    && b.outputs == SpendTemplates(enc, b.terms, b.fees)
    && b.outputs != []
    && b.subtotal == b.terms.value + PayTotal(b.fees)
    && b.txBsize == MaxVoutSize(b.outputs)
    && b.vinTxfee == b.feerate * SPEND_TXIN_SIZE
  }

  /* ---------- recounting (tabulate_funds) ---------- */

  datatype Tab = Tab(vinCount: int, fundValue: int, satsVbyte: int, txFees: int, txVsize: int, txTotal: int)

  predicate IsConfirmed(d: Deposit) { d.confirmed }

  predicate IsPending(d: Deposit) { !d.confirmed }

  /** The floor of a quotient; a division by zero, which the code leaves to the number type, is 0. */
  function FloorDiv(x: int, y: int): int {
    if y == 0 then 0 else if y > 0 then x / y else -x / -y
  }

  function Tabulate(b: Base, funds: seq<Deposit>): Tab
    requires b.outputs != []
  {
    var baseSize := MaxVoutSize(b.outputs);
    var baseFee := baseSize * b.feerate;
    var confirmed := Filter(IsConfirmed, funds);
    var n := |confirmed|;
    var txinSize := SPEND_TXIN_SIZE * n;
    var txinFee := txinSize * b.feerate;
    var size := baseFee + txinFee;    // the code names the fee "size"
    var fee := baseSize + txinSize;   // and the size "fee"
    var txFees := baseFee + n * b.vinTxfee;
    Tab(n, Total(confirmed), FloorDiv(size, fee), txFees, baseSize + n * SPEND_TXIN_SIZE, b.subtotal + txFees)
  }

  /** `verify_contract_funding`. */
  predicate VerifyFunding(b: Base, f: Funds, funds: seq<Deposit>)
    requires b.outputs != []
  {
    var tab := Tabulate(b, funds);
    && f.vinCount == tab.vinCount
    && f.fundsPend + f.fundsConf == tab.fundValue
    && f.txFees == tab.txFees
    && f.txTotal == tab.txTotal
    && f.txVsize == tab.txVsize
  }

  /* ---------- running totals ---------- */

  /** One change to the deposits held; an index that names no such deposit is refused. */
  datatype FundOp = AddFund(deposit: Deposit) | ConfirmFund(i: nat) | RemoveFund(i: nat)

  function Without(held: seq<Deposit>, i: nat): seq<Deposit>
    requires i < |held|
  {
    held[..i] + held[i + 1..]
  }

  datatype Ledger = Ledger(funds: Funds, held: seq<Deposit>)

  function FundStep(l: Ledger, vinTxfee: int, op: FundOp): Ledger {
    match op
    case AddFund(d) => Ledger(AddFunds(l.funds, vinTxfee, d), l.held + [d])
    case ConfirmFund(i) =>
      if i >= |l.held| || l.held[i].confirmed then l
      else
        var d := l.held[i].(confirmed := true);
        Ledger(ConfirmFunds(l.funds, vinTxfee, d), l.held[i := d])
    case RemoveFund(i) =>
      if i >= |l.held| then l
      else Ledger(RemoveFunds(l.funds, vinTxfee, l.held[i]), Without(l.held, i))
  }

  function FundRun(l: Ledger, vinTxfee: int, ops: seq<FundOp>): Ledger
    decreases |ops|
  {
    if ops == [] then l else FundRun(FundStep(l, vinTxfee, ops[0]), vinTxfee, ops[1..])
  }

  lemma {:induction false} FilterAppend(p: Deposit -> bool, a: seq<Deposit>, b: seq<Deposit>)
    ensures Filter(p, a + b) == Filter(p, a) + Filter(p, b)
  {
    if a == [] {
      assert a + b == b;
    } else {
      var first := if p(a[0]) then [a[0]] else [];
      assert (a + b)[1..] == a[1..] + b;
      FilterAppend(p, a[1..], b);
      assert first + (Filter(p, a[1..]) + Filter(p, b)) == first + Filter(p, a[1..]) + Filter(p, b);
    }
  }

  lemma {:induction false} TotalAppend(a: seq<Deposit>, b: seq<Deposit>)
    ensures Total(a + b) == Total(a) + Total(b)
  {
    if a == [] {
      assert a + b == b;
    } else {
      assert (a + b)[1..] == a[1..] + b;
      TotalAppend(a[1..], b);
    }
  }

  /** Counting and summing one kind of deposit, with the deposit at one index set apart. */
  lemma Around(p: Deposit -> bool, held: seq<Deposit>, i: nat)
    requires i < |held|
    ensures |Filter(p, held)| == |Filter(p, Without(held, i))| + (if p(held[i]) then 1 else 0)
    ensures Total(Filter(p, held)) == Total(Filter(p, Without(held, i))) + (if p(held[i]) then held[i].value else 0)
  {
    var (a, mid, b) := (held[..i], [held[i]], held[i + 1..]);
    assert held == a + mid + b;
    FilterAppend(p, a + mid, b);
    FilterAppend(p, a, mid);
    FilterAppend(p, a, b);
    TotalAppend(Filter(p, a) + Filter(p, mid), Filter(p, b));
    TotalAppend(Filter(p, a), Filter(p, mid));
    TotalAppend(Filter(p, a), Filter(p, b));
  }

  lemma Apart(held: seq<Deposit>, i: nat)
    requires i < |held|
    ensures var (d, rest) := (held[i], Without(held, i));
            if d.confirmed then
              && |Filter(IsConfirmed, held)| == |Filter(IsConfirmed, rest)| + 1
              && Total(Filter(IsConfirmed, held)) == Total(Filter(IsConfirmed, rest)) + d.value
              && Total(Filter(IsPending, held)) == Total(Filter(IsPending, rest))
            else
              && |Filter(IsConfirmed, held)| == |Filter(IsConfirmed, rest)|
              && Total(Filter(IsConfirmed, held)) == Total(Filter(IsConfirmed, rest))
              && Total(Filter(IsPending, held)) == Total(Filter(IsPending, rest)) + d.value
  {
    Around(IsConfirmed, held, i);
    Around(IsPending, held, i);
  }

  /** The running totals are a recount of the deposits held. */
  predicate Agrees(b: Base, l: Ledger) {
    var confirmed := Filter(IsConfirmed, l.held);
    && l.funds.fundsConf == Total(confirmed)
    && l.funds.fundsPend == Total(Filter(IsPending, l.held))
    && l.funds.vinCount == |confirmed|
    && l.funds.txFees == b.txBsize * b.feerate + |confirmed| * b.vinTxfee
    && l.funds.txVsize == b.txBsize + |confirmed| * SPEND_TXIN_SIZE
    && l.funds.txTotal == b.subtotal + l.funds.txFees + l.funds.fundsConf
  }

  /** One confirmed input more. */
  lemma OneMore(n: int, fee: int)
    ensures (n + 1) * fee == n * fee + fee
  {
  }

  lemma AgreesAdd(b: Base, l: Ledger, d: Deposit)
    requires Agrees(b, l)
    ensures Agrees(b, FundStep(l, b.vinTxfee, AddFund(d)))
  {
    var n := |l.held|;
    Apart(l.held + [d], n);
    assert Without(l.held + [d], n) == l.held;
    OneMore(|Filter(IsConfirmed, l.held)|, b.vinTxfee);
  }

  lemma AgreesRemove(b: Base, l: Ledger, i: nat)
    requires Agrees(b, l)
    ensures Agrees(b, FundStep(l, b.vinTxfee, RemoveFund(i)))
  {
    if i < |l.held| {
      Apart(l.held, i);
      OneMore(|Filter(IsConfirmed, Without(l.held, i))|, b.vinTxfee);
    }
  }

  lemma AgreesConfirm(b: Base, l: Ledger, i: nat)
    requires Agrees(b, l)
    ensures Agrees(b, FundStep(l, b.vinTxfee, ConfirmFund(i)))
  {
    if i < |l.held| && !l.held[i].confirmed {
      var held := l.held[i := l.held[i].(confirmed := true)];
      Apart(l.held, i);
      Apart(held, i);
      assert Without(held, i) == Without(l.held, i);
      OneMore(|Filter(IsConfirmed, l.held)|, b.vinTxfee);
    }
  }

  lemma AgreesStep(b: Base, l: Ledger, op: FundOp)
    requires Agrees(b, l)
    ensures Agrees(b, FundStep(l, b.vinTxfee, op))
  {
    match op
    case AddFund(d) => AgreesAdd(b, l, d);
    case ConfirmFund(i) => AgreesConfirm(b, l, i);
    case RemoveFund(i) => AgreesRemove(b, l, i);
  }

  lemma {:induction false} AgreesRun(b: Base, l: Ledger, ops: seq<FundOp>)
    requires Agrees(b, l)
    ensures Agrees(b, FundRun(l, b.vinTxfee, ops))
    decreases |ops|
  {
    if ops != [] {
      AgreesStep(b, l, ops[0]);
      AgreesRun(b, FundStep(l, b.vinTxfee, ops[0]), ops[1..]);
    }
  }

  function StartLedger(b: Base): Ledger {
    Ledger(PublishedRecord(b).funds, [])
  }

  /** Running totals refine the tabulation. After any sequence of additions, confirmations and
      removals, counts, fees and size are what a recount of the deposits held gives, and the
      transaction total exceeds the tabulated one by exactly the confirmed funds. */
  lemma RunningTotals(enc: Encoding, b: Base, ops: seq<FundOp>)
    requires WellMade(enc, b)
    ensures var l := FundRun(StartLedger(b), b.vinTxfee, ops);
            var tab := Tabulate(b, l.held);
            && l.funds.vinCount == tab.vinCount
            && l.funds.fundsConf == tab.fundValue
            && l.funds.fundsPend == Total(Filter(IsPending, l.held))
            && l.funds.txFees == tab.txFees
            && l.funds.txVsize == tab.txVsize
            && l.funds.txTotal == tab.txTotal + l.funds.fundsConf
  {
    assert Agrees(b, StartLedger(b));
    AgreesRun(b, StartLedger(b), ops);
  }

  /** So the verifier's recount rejects a contract that is still collecting funds, exactly
      unless both its pending and its confirmed funds are zero. */
  lemma UnsecuredFunding(enc: Encoding, b: Base, ops: seq<FundOp>)
    requires WellMade(enc, b)
    ensures var l := FundRun(StartLedger(b), b.vinTxfee, ops);
            VerifyFunding(b, l.funds, l.held) <==> l.funds.fundsPend == 0 && l.funds.fundsConf == 0
  {
    RunningTotals(enc, b, ops);
  }

  lemma {:induction false} FilterAll(p: Deposit -> bool, held: seq<Deposit>)
    requires forall d | d in held :: p(d)
    ensures Filter(p, held) == held
  {
    if held != [] {
      FilterAll(p, held[1..]);
    }
  }

  lemma RateDivides(rate: int, size: int)
    requires size > 0
    ensures (size * rate) / size == rate
  {
    var (q, r) := ((size * rate) / size, (size * rate) % size);
    assert size * rate == size * q + r;
    ExactQuotient(size, rate - q, r);
  }

  lemma ExactQuotient(size: int, gap: int, r: int)
    requires size > 0 && 0 <= r < size && size * gap == r
    ensures gap == 0
  {
    if gap >= 1 {
      assert size * gap == size + size * (gap - 1);
      MulSign(size, gap - 1);
    } else if gap <= -1 {
      assert size * gap == -(size * (-gap));
      assert size * -gap == size + size * (-gap - 1);
      MulSign(size, -gap - 1);
    }
  }

  lemma MulSign(a: int, b: int)
    requires a > 0 && b >= 0
    ensures a * b >= 0
  {
  }

  lemma FeesFactor(rate: int, base: int, n: int)
    ensures base * rate + (SPEND_TXIN_SIZE * n) * rate == (base + SPEND_TXIN_SIZE * n) * rate
    ensures rate * base + (rate * SPEND_TXIN_SIZE) * n == rate * (base + n * SPEND_TXIN_SIZE)
  {
  }

  lemma AllConfirmed(deposits: seq<Deposit>)
    requires forall d | d in deposits :: d.confirmed
    ensures Filter(IsConfirmed, deposits) == deposits
  {
    forall d | d in deposits ensures IsConfirmed(d) {
    }
    FilterAll(IsConfirmed, deposits);
  }

  /** The fees of a size at a rate, divided by the size, are the rate. */
  lemma RateRecovered(rate: int, base: int, n: nat)
    requires base > 0
    ensures FloorDiv(base * rate + (SPEND_TXIN_SIZE * n) * rate, base + SPEND_TXIN_SIZE * n) == rate
  {
    FeesFactor(rate, base, n);
    RateDivides(rate, base + SPEND_TXIN_SIZE * n);
  }

  /** Securing recounts from scratch: afterwards the verifier's recount agrees in every total,
      and the tabulated rate is the contract's fee rate. */
  lemma SecuredFunding(enc: Encoding, c: Contract, deposits: seq<Deposit>, signer: string, at: int)
    requires WellMade(enc, c.record.base) && CanSecure(c.record, deposits)
    ensures var r := Step(c, Secure(deposits, at), signer).value.record;
            && r.base == c.record.base
            && VerifyFunding(r.base, r.funds, deposits)
            && (r.base.txBsize > 0 ==> Tabulate(r.base, deposits).satsVbyte == r.base.feerate)
  {
    var b := c.record.base;
    var r := Step(c, Secure(deposits, at), signer).value.record;
    assert r.base == b && r.funds == SecuredFunds(b, deposits);
    AllConfirmed(deposits);
    MulSwap(b.feerate, b.txBsize);
    MulSwap(b.vinTxfee, |deposits|);
    if b.txBsize > 0 {
      RateRecovered(b.feerate, b.txBsize, |deposits|);
    }
  }

  lemma MulSwap(x: int, y: int)
    ensures x * y == y * x
  {
  }

  /* ---------- the quoted balance ---------- */

  function ContractValue(b: Base): int {
    b.subtotal + b.feerate * b.txBsize
  }

  function ContractBalance(b: Base, f: Funds): int {
    ContractValue(b) + (f.vinCount * b.vinTxfee - f.fundsConf)
  }

  /** The quoted balance is exact. For a contract holding any confirmed deposits, after any
      sequence of changes, one more confirmed deposit makes securing it succeed if and only if
      its value is at least the quoted balance plus the fee for its own input. */
  lemma QuotedBalance(b: Base, r: Record, ops: seq<FundOp>, d: Deposit)
    requires r.base == b && !r.canceling.canceled && d.confirmed
    requires r.funds == FundRun(StartLedger(b), b.vinTxfee, ops).funds
    requires forall e | e in FundRun(StartLedger(b), b.vinTxfee, ops).held :: e.confirmed
    ensures CanSecure(r, FundRun(StartLedger(b), b.vinTxfee, ops).held + [d])
       <==> d.value >= ContractBalance(b, r.funds) + b.vinTxfee
  {
    var held := FundRun(StartLedger(b), b.vinTxfee, ops).held;
    assert Agrees(b, StartLedger(b));
    AgreesRun(b, StartLedger(b), ops);
    AllConfirmed(held);
    TotalAppend(held, [d]);
    assert forall e | e in held + [d] :: e.confirmed;
    MulSucc(b.vinTxfee, |held|);
  }

  lemma MulSucc(a: int, n: int)
    ensures a * (n + 1) == n * a + a
  {
  }
}
