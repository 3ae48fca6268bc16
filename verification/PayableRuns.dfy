/** What payment batches guarantee, and what every run of payable operations keeps. */
module PayableRuns {
  import opened Prelude
  import opened Payables
  import InvoiceMatching

  // ---------------------------------------------------------------------------------------
  // One batch

  /** No invoice is reported paid twice, however often it is listed. */
  lemma EachIdPaidAtMostOnce(
    b: Books, ids: seq<string>, queued: seq<bool>, results: seq<RunResult>, i: nat, j: nat)
    requires Reports(b, ids, queued, results)
    requires i < j < |results| && results[i].invoice == results[j].invoice
    ensures !(results[i].paid && results[j].paid)
  {
    assert ids[i] in ids[..j];
  }

  /** A paid invoice ends settled to the unit; every other invoice keeps its payments. */
  lemma BatchSettlesExactly(b: Books, ids: seq<string>, run: nat, id: string)
    requires id in b.invoices
    ensures var after := AfterBatch(b, ids, run);
            if id in ids && Settles(b, id) then
              after.invoices[id].status == Paid && PaidTotal(after, id) == b.invoices[id].total
            else
              after.invoices[id] == b.invoices[id] && PaidTotal(after, id) == PaidTotal(b, id)
  {
    PaidAfterBatch(b, ids, run, id);
  }

  ghost function TaggedWith(run: nat): Payment -> int {
    (p: Payment) => if p.run == Some(run) then p.amount else 0
  }

  /** Every payment that the batch makes also has its event queued. */
  ghost predicate AllQueued(b: Books, ids: seq<string>, queued: seq<bool>)
    requires |ids| == |queued|
  {
    forall i :: 0 <= i < |ids| && PaysAt(b, ids, i) ==> queued[i]
  }

  lemma ReportsPrefix(b: Books, ids: seq<string>, queued: seq<bool>, results: seq<RunResult>)
    requires Reports(b, ids, queued, results) && |ids| > 0
    ensures var n := |ids| - 1;
            && Reports(b, ids[..n], queued[..n], results[..n])
            && (AllQueued(b, ids, queued) <==> AllQueued(b, ids[..n], queued[..n]) && (PaysAt(b, ids, n) ==> queued[n]))
  {
    var n := |ids| - 1;
    forall k | 0 <= k < n
      ensures PaysAt(b, ids[..n], k) <==> PaysAt(b, ids, k)
    {
      assert ids[..n][..k] == ids[..k];
    }
  }

  /** What the last listed id adds to the reported total and to the payments made. */
  lemma LastReport(b: Books, ids: seq<string>, queued: seq<bool>, results: seq<RunResult>)
    requires Reports(b, ids, queued, results) && |ids| > 0
    ensures var n := |ids| - 1;
            SumBy(results, AmountOf()) ==
            SumBy(results[..n], AmountOf()) + if PaysAt(b, ids, n) && queued[n] then Balance(b, ids[n]) else 0
  {
  }

  lemma LastPayment(b: Books, ids: seq<string>, run: nat)
    requires |ids| > 0
    ensures var n := |ids| - 1;
            SumBy(BatchPayments(b, ids, run), TaggedWith(run)) ==
            SumBy(BatchPayments(b, ids[..n], run), TaggedWith(run))
            + if PaysAt(b, ids, n) then Balance(b, ids[n]) else 0
  {
    var n := |ids| - 1;
    if PaysAt(b, ids, n) {
      BalanceIsStored(b, ids[n]);
      var payment := Payment(ids[n], Some(run), Balance(b, ids[n]));
      SumByAppend(BatchPayments(b, ids[..n], run), payment, TaggedWith(run));
    } else {
      assert BatchPayments(b, ids[..n], run) + [] == BatchPayments(b, ids[..n], run);
    }
  }

  /** What is reported never exceeds what was paid, and equals it exactly when every event was queued. */
  lemma {:induction false} ReportedTotal(
    b: Books, ids: seq<string>, queued: seq<bool>, run: nat, results: seq<RunResult>)
    requires Reports(b, ids, queued, results)
    ensures var reported, made := SumBy(results, AmountOf()), SumBy(BatchPayments(b, ids, run), TaggedWith(run));
            reported <= made && (reported == made <==> AllQueued(b, ids, queued))
  {
    if |ids| > 0 {
      var n := |ids| - 1;
      ReportsPrefix(b, ids, queued, results);
      ReportedTotal(b, ids[..n], queued[..n], run, results[..n]);
      LastReport(b, ids, queued, results);
      LastPayment(b, ids, run);
    }
  }

  lemma {:induction false} UntaggedSum(ps: seq<Payment>, run: nat)
    requires forall p :: p in ps ==> p.run != Some(run)
    ensures SumBy(ps, TaggedWith(run)) == 0
  {
    if |ps| > 0 {
      UntaggedSum(ps[..|ps| - 1], run);
    }
  }

  /**
   * The reported total is the sum of the payment rows tagged with the (new) run exactly when every
   * payment made also had its event queued; a queue failure hides a committed payment.
   */
  lemma ReportedTotalMatchesRowsIff(
    b: Books, ids: seq<string>, queued: seq<bool>, run: nat, results: seq<RunResult>)
    requires Reports(b, ids, queued, results)
    requires forall p :: p in b.payments ==> p.run != Some(run)
    ensures SumBy(results, AmountOf()) == SumBy(AfterBatch(b, ids, run).payments, TaggedWith(run))
            <==> AllQueued(b, ids, queued)
  {
    ReportedTotal(b, ids, queued, run, results);
    UntaggedSum(b.payments, run);
    SumByConcat(b.payments, BatchPayments(b, ids, run), TaggedWith(run));
  }

  /** One approved invoice and a queue that is down: paid in full, yet reported as failed. */
  lemma PaidYetReportedFailed(id: string, total: Money, run: nat)
    requires total > 0
    ensures var b := Books(map[id := Invoice(None, None, total, [], Approved)], [], [id]);
            && Reports(b, [id], [false], [RunResult(id, false, 0)])
            && AfterBatch(b, [id], run).payments == [Payment(id, Some(run), total)]
            && AfterBatch(b, [id], run).invoices[id].status == Paid
  {
    var b := Books(map[id := Invoice(None, None, total, [], Approved)], [], [id]);
    assert Settles(b, id) && Balance(b, id) == total;
    BalanceIsStored(b, id);
    assert [id][..0] == [];
    assert BatchPayments(b, [id], run) == BatchPayments(b, [], run) + [Payment(id, Some(run), total)];
  }

  // ---------------------------------------------------------------------------------------
  // Runs

  datatype Op =
    | Create(id: string, dto: NewInvoice, po: Option<InvoiceMatching.OrderDocument>, receiptOrder: Option<string>)
    | Approve(id: string)
    | Cancel(id: string)
    | Pay(id: string, amount: int)
    | Batch(ids: seq<string>, run: nat)

  ghost function Apply(b: Books, op: Op): Books {
    match op
    case Create(id, dto, po, receiptOrder) => AfterCreation(b, id, dto, po, receiptOrder)
    case Approve(id) => AfterApproval(b, id)
    case Cancel(id) => AfterCancellation(b, id)
    case Pay(id, amount) => AfterPayment(b, id, amount, None)
    case Batch(ids, run) => AfterBatch(b, ids, run)
  }

  /** Generated ids are new and recorded payments are positive. */
  ghost predicate Admissible(b: Books, op: Op) {
    && (op.Create? ==> op.id !in b.invoices)
    && (op.Pay? ==> op.amount > 0)
  }

  ghost function Run(ops: seq<Op>): Books {
    if |ops| == 0 then Books(map[], [], []) else Apply(Run(ops[..|ops| - 1]), ops[|ops| - 1])
  }

  ghost predicate AdmissibleRun(ops: seq<Op>) {
    forall i :: 0 <= i < |ops| ==> Admissible(Run(ops[..i]), ops[i])
  }

  ghost predicate InvoiceConsistent(b: Books, id: string)
    requires id in b.invoices
  {
    var inv := b.invoices[id];
    // an approval event has been emitted exactly for the statuses past approval
    && (id in b.approvals <==> EnteredLedger(inv.status))
    && PaidTotal(b, id) >= 0
    && (PaidTotal(b, id) > 0 ==> EnteredLedger(inv.status))
    && (inv.status == Paid ==> PaidTotal(b, id) >= inv.total)
    && (inv.status == PartiallyPaid ==> 0 <= PaidTotal(b, id) <= inv.total && inv.total > 0)
  }

  ghost predicate Consistent(b: Books) {
    && (forall id :: id in b.invoices ==> InvoiceConsistent(b, id))
    && (forall id :: id in b.approvals ==> id in b.invoices)
    && (forall p :: p in b.payments ==> p.invoice in b.invoices)
  }

  lemma {:induction false} NoPayments(ps: seq<Payment>, id: string)
    requires forall p :: p in ps ==> p.invoice != id
    ensures SumBy(ps, PaidOn(id)) == 0
  {
    if |ps| > 0 {
      NoPayments(ps[..|ps| - 1], id);
    }
  }

  lemma {:induction false} BatchPaymentsName(b: Books, ids: seq<string>, run: nat)
    ensures forall p :: p in BatchPayments(b, ids, run) ==> p.invoice in b.invoices
  {
    if |ids| > 0 {
      BatchPaymentsName(b, ids[..|ids| - 1], run);
    }
  }

  /** A step that changes one invoice's status and adds no payment. */
  lemma StatusChangeKeepsConsistent(b: Books, after: Books, id: string)
    requires Consistent(b) && id in b.invoices && id in after.invoices && after.payments == b.payments
    requires var now := after.invoices[id].status;
             && after.invoices == b.invoices[id := b.invoices[id].(status := now)]
             && (forall x :: x in after.approvals <==> x in b.approvals || (x == id && now == Approved))
             && (now == Approved || (now == Cancelled && !EnteredLedger(b.invoices[id].status)))
    ensures Consistent(after)
  {
    forall x | x in after.invoices
      ensures InvoiceConsistent(after, x)
    {
      assert InvoiceConsistent(b, x);
    }
  }

  lemma CreationKeepsConsistent(b: Books, after: Books, id: string)
    requires Consistent(b) && id !in b.invoices && after.payments == b.payments
    requires after.invoices.Keys == b.invoices.Keys + {id}
    requires forall x :: x in b.invoices ==> after.invoices[x] == b.invoices[x]
    requires if after.invoices[id].status == Approved then after.approvals == b.approvals + [id]
             else after.invoices[id].status == PendingMatch && after.approvals == b.approvals
    ensures Consistent(after)
  {
    NoPayments(b.payments, id);
    forall x | x in after.invoices
      ensures InvoiceConsistent(after, x)
    {
      if x != id {
        assert InvoiceConsistent(b, x);
      }
    }
  }

  /** The paid total and the status that one payment leaves on its invoice. */
  lemma PaymentOnInvoice(b: Books, id: string, amount: int)
    requires id in b.invoices && Payable(b.invoices[id].status) && PaidTotal(b, id) >= 0 && amount > 0
    ensures var after, inv, prior := AfterPayment(b, id, amount, None), b.invoices[id], PaidTotal(b, id);
            && PaidTotal(after, id) == prior + Stored(amount) >= prior && prior % COLUMN_STEP == 0
            && after.invoices[id].status == (if prior + amount >= inv.total then Paid else PartiallyPaid)
            && (prior + amount >= inv.total ==> PaidTotal(after, id) >= inv.total)
            && (prior + amount < inv.total ==> PaidTotal(after, id) <= inv.total)
  {
    var inv := b.invoices[id];
    SumByAppend(b.payments, Payment(id, None, Stored(amount)), PaidOn(id));
    SumByStored(b.payments, PaidOn(id));
    SettlementTestsAgreeIff(inv.total, PaidTotal(b, id), amount);
    StoredIsNear(amount);
    if PaidTotal(b, id) + amount < inv.total {
      UnsettledStaysWithin(inv.total, PaidTotal(b, id), amount);
    }
  }

  lemma PaymentKeepsConsistent(b: Books, id: string, amount: int)
    requires Consistent(b) && amount > 0
    ensures Consistent(AfterPayment(b, id, amount, None))
  {
    var after := AfterPayment(b, id, amount, None);
    if after != b {
      forall x | x in after.invoices
        ensures InvoiceConsistent(after, x)
      {
        assert InvoiceConsistent(b, x);
        if x == id {
          PaymentOnInvoice(b, id, amount);
        } else {
          SumByAppend(b.payments, Payment(id, None, Stored(amount)), PaidOn(x));
        }
      }
    }
  }

  /** A first payment that its row stores as zero. */
  ghost predicate LeavesNoTrace(b: Books, id: string, amount: int)
    requires id in b.invoices
  {
    && b.invoices[id].status == Approved && PaidTotal(b, id) == 0
    && 2 * amount < COLUMN_STEP && amount < b.invoices[id].total
  }

  /**
   * The status after a payment is the one that the payment rows call for exactly when the payment
   * does not fall short of the total and is not a first one stored as zero.
   */
  lemma StatusMatchesRowsIff(b: Books, id: string, amount: int)
    requires Consistent(b) && id in b.invoices && Payable(b.invoices[id].status) && amount > 0
    ensures var after, inv := AfterPayment(b, id, amount, None), b.invoices[id];
            after.invoices[id].status == StatusAfter(inv.status, PaidTotal(after, id), inv.total) <==>
            !FallsShort(inv.total, PaidTotal(b, id), amount) && !LeavesNoTrace(b, id, amount)
  {
    assert InvoiceConsistent(b, id);
    PaymentOnInvoice(b, id, amount);
    SettlementTestsAgreeIff(b.invoices[id].total, PaidTotal(b, id), amount);
    StoredIsNear(amount);
  }

  /** An approved invoice of 100.0000 on which nothing was paid yet. */
  ghost function OneApproved(id: string): Books {
    Books(map[id := Invoice(None, None, 1_000_000_000_000, [], Approved)], [], [id])
  }

  /**
   * Paid with 99.99996, it stays PARTIALLY_PAID although its row says 100.0000, and no batch
   * settles it; paid with 0.00004, it is PARTIALLY_PAID although its row says 0.0000.
   */
  lemma RoundedPaymentsMislead(id: string)
    ensures var short, faint := AfterPayment(OneApproved(id), id, 999_999_600_000, None),
                                AfterPayment(OneApproved(id), id, 400_000, None);
            && short.invoices[id].status == PartiallyPaid && PaidTotal(short, id) == short.invoices[id].total
            && !Settles(short, id)
            && faint.invoices[id].status == PartiallyPaid && PaidTotal(faint, id) == 0
  {
    var b := OneApproved(id);
    assert PaidTotal(b, id) == 0;
    PaymentOnInvoice(b, id, 999_999_600_000);
    PaymentOnInvoice(b, id, 400_000);
  }

  lemma BatchKeepsConsistent(b: Books, ids: seq<string>, run: nat)
    requires Consistent(b)
    ensures Consistent(AfterBatch(b, ids, run))
  {
    var after := AfterBatch(b, ids, run);
    BatchPaymentsName(b, ids, run);
    forall x | x in after.invoices
      ensures InvoiceConsistent(after, x)
    {
      assert InvoiceConsistent(b, x);
      BatchSettlesExactly(b, ids, run, x);
    }
  }

  lemma StepKeepsConsistent(b: Books, op: Op)
    requires Consistent(b) && Admissible(b, op)
    ensures Consistent(Apply(b, op))
  {
    match op
    case Create(id, dto, po, receiptOrder) => CreationKeepsConsistent(b, Apply(b, op), id);
    case Approve(id) =>
      if id in b.invoices {
        StatusChangeKeepsConsistent(b, Apply(b, op), id);
      }
    case Cancel(id) =>
      if Apply(b, op) != b {
        StatusChangeKeepsConsistent(b, Apply(b, op), id);
      }
    case Pay(id, amount) => PaymentKeepsConsistent(b, id, amount);
    case Batch(ids, run) => BatchKeepsConsistent(b, ids, run);
  }

  /**
   * Over every run with positive payments, statuses, payments and emitted approvals agree. In
   * particular a cancelled invoice has no payment and no approval event behind it, so nothing
   * of it is in the general ledger.
   */
  lemma {:induction false} RunKeepsConsistent(ops: seq<Op>)
    requires AdmissibleRun(ops)
    ensures Consistent(Run(ops))
  {
    if |ops| > 0 {
      var front := ops[..|ops| - 1];
      assert forall i :: 0 <= i < |front| ==> front[..i] == ops[..i];
      RunKeepsConsistent(front);
      StepKeepsConsistent(Run(front), ops[|ops| - 1]);
    }
  }

  lemma {:induction false} BatchPaymentsAreNotNegative(b: Books, ids: seq<string>, run: nat)
    ensures forall p :: p in BatchPayments(b, ids, run) ==> p.amount >= 0
  {
    if |ids| > 0 {
      var id := ids[|ids| - 1];
      BatchPaymentsAreNotNegative(b, ids[..|ids| - 1], run);
      if Settles(b, id) {
        StoredIsNear(Balance(b, id));
      }
    }
  }

  lemma {:induction false} PaymentsAreNotNegative(ops: seq<Op>)
    requires AdmissibleRun(ops)
    ensures forall p :: p in Run(ops).payments ==> p.amount >= 0
  {
    if |ops| > 0 {
      var front, op := ops[..|ops| - 1], ops[|ops| - 1];
      assert forall i :: 0 <= i < |front| ==> front[..i] == ops[..i];
      PaymentsAreNotNegative(front);
      if op.Batch? {
        BatchPaymentsAreNotNegative(Run(front), op.ids, op.run);
      }
      if op.Pay? {
        StoredIsNear(op.amount);
      }
    }
  }

  /** When money only leaves through batches, no run ever pays an invoice past its total. */
  lemma {:induction false} BatchesNeverOverpay(ops: seq<Op>, id: string)
    requires AdmissibleRun(ops) && forall i :: 0 <= i < |ops| ==> !ops[i].Pay?
    ensures id in Run(ops).invoices ==>
              PaidTotal(Run(ops), id) == 0 || PaidTotal(Run(ops), id) == Run(ops).invoices[id].total
  {
    if |ops| > 0 {
      var front, op := ops[..|ops| - 1], ops[|ops| - 1];
      assert forall i :: 0 <= i < |front| ==> front[..i] == ops[..i];
      BatchesNeverOverpay(front, id);
      RunKeepsConsistent(front);
      if op.Batch? && id in Run(front).invoices {
        BatchSettlesExactly(Run(front), op.ids, op.run, id);
      }
      if op.Create? && op.id == id {
        NoPayments(Run(front).payments, id);
      }
    }
  }
}
