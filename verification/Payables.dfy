/**
 * Accounts payable: invoices, approvals, cancellations, payments and payment batches. Each
 * transaction of the source is one atomic step; an approval also records the event that it emits.
 */
module Payables {
  import opened Prelude
  import Purchasing
  import opened Selections
  import InvoiceMatching

  datatype Status = Draft | PendingMatch | Approved | PartiallyPaid | Paid | Cancelled

  datatype Invoice = Invoice(
    vendor: Option<string>, purchaseOrder: Option<string>, total: Money,
    lines: seq<InvoiceMatching.InvoiceLine>, status: Status)

  datatype Payment = Payment(invoice: string, run: Option<nat>, amount: Money)

  /** `approvals` lists the invoice-approved events in the order of their emission. */
  datatype Books = Books(invoices: map<string, Invoice>, payments: seq<Payment>, approvals: seq<string>)

  /** `NotQueued` is a payment that was committed before the event queue refused its message. */
  datatype Outcome = Done | NotFound | NotApproved | AlreadyCancelled | InLedger | NotQueued

  datatype RunResult = RunResult(invoice: string, paid: bool, amount: int)

  ghost function PaidOn(id: string): Payment -> int {
    (p: Payment) => if p.invoice == id then p.amount else 0
  }

  ghost function PaidTotal(b: Books, id: string): int {
    SumBy(b.payments, PaidOn(id))
  }

  predicate Payable(s: Status) {
    s == Approved || s == PartiallyPaid
  }

  /** Past approval, so posted to the general ledger. */
  predicate EnteredLedger(s: Status) {
    s == Approved || s == PartiallyPaid || s == Paid
  }

  /** The status after a payment that brings the paid total to `paid`. */
  function StatusAfter(s: Status, paid: int, total: int): Status {
    if paid >= total then Paid else if paid > 0 then PartiallyPaid else s
  }

  // ---------------------------------------------------------------------------------------
  // Steps

  ghost function AfterApproval(b: Books, id: string): Books {
    if id !in b.invoices then b
    else b.(invoices := b.invoices[id := b.invoices[id].(status := Approved)], approvals := b.approvals + [id])
  }

  ghost function AfterCancellation(b: Books, id: string): Books {
    if id !in b.invoices || !(b.invoices[id].status in {Draft, PendingMatch}) then b
    else b.(invoices := b.invoices[id := b.invoices[id].(status := Cancelled)])
  }

  ghost function AfterPayment(b: Books, id: string, amount: int, run: Option<nat>): Books {
    if id !in b.invoices || !Payable(b.invoices[id].status) then b
    else
      var inv := b.invoices[id];
      var status := StatusAfter(inv.status, PaidTotal(b, id) + amount, inv.total);
      Books(b.invoices[id := inv.(status := status)], b.payments + [Payment(id, run, Stored(amount))], b.approvals)
  }

  /** What a new invoice asks for and the documents looked up for its match. */
  datatype NewInvoice = NewInvoice(
    vendor: Option<string>, purchaseOrder: Option<string>, total: int,
    lines: seq<InvoiceMatching.InvoiceLine>, receipt: Option<string>)

  /** The lines as their rows hold them. */
  function StoredLines(lines: seq<InvoiceMatching.InvoiceLine>): seq<InvoiceMatching.InvoiceLine> {
    seq(|lines|, i requires 0 <= i < |lines| => lines[i].(quantity := StoredQuantity(lines[i].quantity)))
  }

  /** The match reads total and lines back from the invoice's rows. */
  function MatchInputOf(
    dto: NewInvoice, po: Option<InvoiceMatching.OrderDocument>, receiptOrder: Option<string>)
    : InvoiceMatching.MatchInput
  {
    InvoiceMatching.MatchInput(dto.vendor, Stored(dto.total), StoredLines(dto.lines), po, receiptOrder)
  }

  /** A match is attempted only when the invoice names an order and a receipt. */
  predicate AutoApproves(
    dto: NewInvoice, po: Option<InvoiceMatching.OrderDocument>, receiptOrder: Option<string>)
  {
    && dto.purchaseOrder.Some? && dto.receipt.Some?
    && InvoiceMatching.PerformThreeWayMatch(MatchInputOf(dto, po, receiptOrder)).IsMatch()
  }

  ghost function AfterCreation(
    b: Books, id: string, dto: NewInvoice,
    po: Option<InvoiceMatching.OrderDocument>, receiptOrder: Option<string>): Books
  {
    var inv := Invoice(dto.vendor, dto.purchaseOrder, Stored(dto.total), StoredLines(dto.lines), PendingMatch);
    var created := b.(invoices := b.invoices[id := inv]);
    if AutoApproves(dto, po, receiptOrder) then AfterApproval(created, id) else created
  }

  /**
   * The documents justify the invoice: they belong together, and either every line names a product
   * and is covered by its order line, or the totals are within tolerance.
   */
  ghost predicate Justifies(
    dto: NewInvoice, po: Option<InvoiceMatching.OrderDocument>, receiptOrder: Option<string>)
  {
    && dto.purchaseOrder.Some? && dto.receipt.Some?
    && po.Some? && dto.vendor == Some(po.value.vendor) && receiptOrder == Some(po.value.id)
    && if dto.lines != [] && forall l :: l in dto.lines ==> l.product.Some? && l.product.value != "" then
         forall l :: l in dto.lines ==>
           InvoiceMatching.Covered(l.(quantity := StoredQuantity(l.quantity)), po.value.lines)
       else
         InvoiceMatching.WithinTolerance(Stored(dto.total), po.value.total)
  }

  /** The new invoice holds what was asked for, and is approved exactly when its documents justify it. */
  ghost predicate Creates(
    b: Books, id: string, dto: NewInvoice,
    po: Option<InvoiceMatching.OrderDocument>, receiptOrder: Option<string>, after: Books)
  {
    && after.invoices.Keys == b.invoices.Keys + {id}
    && (forall x :: x in b.invoices && x != id ==> after.invoices[x] == b.invoices[x])
    && after.payments == b.payments
    && var inv := after.invoices[id];
       && inv.vendor == dto.vendor && inv.purchaseOrder == dto.purchaseOrder && inv.total == Stored(dto.total)
       && |inv.lines| == |dto.lines|
       && (forall i :: 0 <= i < |dto.lines| ==>
             inv.lines[i] == dto.lines[i].(quantity := StoredQuantity(dto.lines[i].quantity)))
       && if Justifies(dto, po, receiptOrder) then inv.status == Approved && after.approvals == b.approvals + [id]
          else inv.status == PendingMatch && after.approvals == b.approvals
  }

  lemma AutoApprovesIff(
    dto: NewInvoice, po: Option<InvoiceMatching.OrderDocument>, receiptOrder: Option<string>)
    ensures AutoApproves(dto, po, receiptOrder) <==> Justifies(dto, po, receiptOrder)
  {
    var input := MatchInputOf(dto, po, receiptOrder);
    forall l | l in dto.lines
      ensures l.(quantity := StoredQuantity(l.quantity)) in input.lines
    {
      var i :| 0 <= i < |dto.lines| && dto.lines[i] == l;
      assert input.lines[i] == l.(quantity := StoredQuantity(l.quantity));
    }
    forall x | x in input.lines
      ensures exists l :: l in dto.lines && x == l.(quantity := StoredQuantity(l.quantity))
    {
      var i :| 0 <= i < |input.lines| && input.lines[i] == x;
      assert dto.lines[i] in dto.lines;
    }
    if |input.lines| > 0 && forall l :: l in input.lines ==> InvoiceMatching.HasProduct(l) {
      InvoiceMatching.LineMatchIff(input);
    } else {
      InvoiceMatching.HeaderMatchIff(input);
    }
  }

  lemma CreationApprovesIff(
    b: Books, id: string, dto: NewInvoice,
    po: Option<InvoiceMatching.OrderDocument>, receiptOrder: Option<string>)
    ensures Creates(b, id, dto, po, receiptOrder, AfterCreation(b, id, dto, po, receiptOrder))
  {
    AutoApprovesIff(dto, po, receiptOrder);
  }

  /** The order lines on which something has arrived. */
  function ReceivedLines(lines: seq<Purchasing.OrderLine>): seq<Purchasing.OrderLine> {
    if |lines| == 0 then [] else
    var front, l := ReceivedLines(lines[..|lines| - 1]), lines[|lines| - 1];
    if l.received > 0 then front + [l] else front
  }

  function ReceivedValue(): Purchasing.OrderLine -> int {
    (l: Purchasing.OrderLine) => Worth(l.received, l.unitPrice)
  }

  /** The invoice generated from an order: everything received so far, at order prices. */
  function GeneratedInvoice(po: InvoiceMatching.OrderDocument, receipt: string): NewInvoice {
    var received := ReceivedLines(po.lines);
    NewInvoice(
      Some(po.vendor), Some(po.id), SumBy(received, ReceivedValue()),
      seq(|received|, i requires 0 <= i < |received| =>
        InvoiceMatching.InvoiceLine(Some(received[i].product), received[i].received, received[i].unitPrice)),
      Some(receipt))
  }

  ghost function HasArrived(): Purchasing.OrderLine -> bool {
    (l: Purchasing.OrderLine) => l.received > 0
  }

  lemma {:induction false} ReceivedLinesAreFiltered(lines: seq<Purchasing.OrderLine>)
    ensures IsFiltered(lines, HasArrived(), ReceivedLines(lines))
  {
    if |lines| == 0 {
      NothingIsFiltered(HasArrived());
    } else {
      var front, last := lines[..|lines| - 1], lines[|lines| - 1];
      assert lines == front + [last];
      ReceivedLinesAreFiltered(front);
      FilteredAppend(front, HasArrived(), ReceivedLines(front), last);
    }
  }

  /** One invoice line for every order line on which something has arrived, with its quantity and price. */
  lemma GeneratedInvoiceMeaning(po: InvoiceMatching.OrderDocument, receipt: string)
    ensures var dto := GeneratedInvoice(po, receipt);
            && dto.vendor == Some(po.vendor) && dto.purchaseOrder == Some(po.id) && dto.receipt == Some(receipt)
            && exists arrived: seq<Purchasing.OrderLine> ::
                 && IsFiltered(po.lines, HasArrived(), arrived)
                 && |dto.lines| == |arrived|
                 && forall i :: 0 <= i < |arrived| ==>
                      dto.lines[i] == InvoiceMatching.InvoiceLine(
                        Some(arrived[i].product), arrived[i].received, arrived[i].unitPrice)
  {
    ReceivedLinesAreFiltered(po.lines);
  }

  /** Some invoice, in whatever status, already names the order. */
  ghost predicate HasInvoiceFor(b: Books, order: string) {
    exists id :: id in b.invoices && b.invoices[id].purchaseOrder == Some(order)
  }

  ghost function AfterReceiptInvoice(
    b: Books, id: string, order: string, receipt: string,
    po: Option<InvoiceMatching.OrderDocument>, receiptOrder: Option<string>): Books
  {
    if HasInvoiceFor(b, order) || po.None? then b
    else AfterCreation(b, id, GeneratedInvoice(po.value, receipt), po, receiptOrder)
  }

  // ---------------------------------------------------------------------------------------
  // Batches

  ghost function Balance(b: Books, id: string): int
    requires id in b.invoices
  {
    b.invoices[id].total - PaidTotal(b, id)
  }

  /** A balance is a difference of column values, so paying it loses nothing in the column. */
  lemma BalanceIsStored(b: Books, id: string)
    requires id in b.invoices
    ensures Stored(Balance(b, id)) == Balance(b, id)
  {
    SumByStored(b.payments, PaidOn(id));
    StoredIsNear(Balance(b, id));
  }

  /** The invoice can be settled by a batch that starts from these books. */
  ghost predicate Settles(b: Books, id: string) {
    id in b.invoices && Payable(b.invoices[id].status) && Balance(b, id) > 0
  }

  /** Approved and partly paid invoices alike are settled while something is still owed on them. */
  lemma SettlesIff(b: Books, id: string)
    ensures Settles(b, id) <==>
            && id in b.invoices && b.invoices[id].status in {Approved, PartiallyPaid}
            && SumBy(b.payments, PaidOn(id)) < b.invoices[id].total
    ensures forall p :: PaidOn(id)(p) == if p.invoice == id then p.amount else 0
  {
  }

  /** The payments that a batch makes: the first occurrence of every settleable id, in full. */
  ghost function BatchPayments(b: Books, ids: seq<string>, run: nat): seq<Payment> {
    if |ids| == 0 then [] else
    var front, id := ids[..|ids| - 1], ids[|ids| - 1];
    BatchPayments(b, front, run) +
    if Settles(b, id) && id !in front then [Payment(id, Some(run), Stored(Balance(b, id)))] else []
  }

  ghost function AfterBatch(b: Books, ids: seq<string>, run: nat): Books {
    Books(
      map id | id in b.invoices ::
        if id in ids && Settles(b, id) then b.invoices[id].(status := Paid) else b.invoices[id],
      b.payments + BatchPayments(b, ids, run),
      b.approvals)
  }

  function AmountOf(): RunResult -> int {
    (r: RunResult) => if r.paid then r.amount else 0
  }

  function CountOf(paid: bool): RunResult -> int {
    (r: RunResult) => if r.paid == paid then 1 else 0
  }

  /** Position `i` is the first occurrence of a settleable invoice, so its payment is made there. */
  ghost predicate PaysAt(b: Books, ids: seq<string>, i: int)
    requires 0 <= i < |ids|
  {
    Settles(b, ids[i]) && ids[i] !in ids[..i]
  }

  /** One result per listed id: paid, in full, exactly where a payment is made and its event queued. */
  ghost predicate Reports(b: Books, ids: seq<string>, queued: seq<bool>, results: seq<RunResult>) {
    && |results| == |ids| == |queued|
    && forall i :: 0 <= i < |ids| ==>
         && results[i].invoice == ids[i]
         && (results[i].paid <==> PaysAt(b, ids, i) && queued[i])
         && (results[i].paid ==> results[i].amount == Balance(b, ids[i]))
  }

  class ApService {
    var invoices: map<string, Invoice>
    var payments: seq<Payment>
    var approvals: seq<string>

    ghost function View(): Books
      reads this
    {
      Books(invoices, payments, approvals)
    }

    constructor ()
      ensures View() == Books(map[], [], [])
    {
      invoices, payments, approvals := map[], [], [];
    }

    method CreateInvoice(
      id: string, dto: NewInvoice, po: Option<InvoiceMatching.OrderDocument>, receiptOrder: Option<string>)
      requires id !in invoices
      modifies this
      ensures View() == AfterCreation(old(View()), id, dto, po, receiptOrder)
      ensures Creates(old(View()), id, dto, po, receiptOrder, View())
    {
      CreationApprovesIff(View(), id, dto, po, receiptOrder);
      var invoice := Invoice(dto.vendor, dto.purchaseOrder, Stored(dto.total), StoredLines(dto.lines), PendingMatch);
      invoices := invoices[id := invoice];
      if dto.purchaseOrder.Some? && dto.receipt.Some? {
        var verdict := InvoiceMatching.PerformThreeWayMatch(MatchInputOf(dto, po, receiptOrder));
        if verdict.IsMatch() {
          invoices := invoices[id := invoice.(status := Approved)];
          approvals := approvals + [id];
        }
      }
    }

    method CreateInvoiceFromGoodsReceipt(
      id: string, order: string, receipt: string,
      po: Option<InvoiceMatching.OrderDocument>, receiptOrder: Option<string>) returns (outcome: Outcome)
      requires id !in invoices
      modifies this
      ensures View() == AfterReceiptInvoice(old(View()), id, order, receipt, po, receiptOrder)
      ensures outcome == if !HasInvoiceFor(old(View()), order) && po.None? then NotFound else Done
    {
      var existing := set x | x in invoices && invoices[x].purchaseOrder == Some(order);
      assert forall x :: x in existing <==> x in invoices && invoices[x].purchaseOrder == Some(order);
      assert existing != {} ==> exists x :: x in existing;
      if existing != {} {
        return Done;
      }
      if po.None? {
        return NotFound;
      }
      CreateInvoice(id, GeneratedInvoice(po.value, receipt), po, receiptOrder);
      return Done;
    }

    /** Approval looks at no prior status. */
    method ManuallyApproveInvoice(id: string) returns (outcome: Outcome)
      modifies this
      ensures View() == AfterApproval(old(View()), id)
      ensures outcome == if id in old(invoices) then Done else NotFound
      ensures outcome == Done ==>
                && approvals == old(approvals) + [id]
                && invoices == old(invoices)[id := old(invoices)[id].(status := Approved)]
    {
      if id !in invoices {
        return NotFound;
      }
      invoices := invoices[id := invoices[id].(status := Approved)];
      approvals := approvals + [id];
      return Done;
    }

    method CancelInvoice(id: string) returns (outcome: Outcome)
      modifies this
      ensures View() == AfterCancellation(old(View()), id)
      ensures outcome ==
              if id !in old(invoices) then NotFound
              else if old(invoices)[id].status == Cancelled then AlreadyCancelled
              else if old(invoices)[id].status in {Approved, PartiallyPaid, Paid} then InLedger else Done
      ensures invoices == if outcome != Done then old(invoices)
                          else old(invoices)[id := old(invoices)[id].(status := Cancelled)]
    {
      if id !in invoices {
        return NotFound;
      }
      if invoices[id].status == Cancelled {
        return AlreadyCancelled;
      }
      if invoices[id].status != Draft && invoices[id].status != PendingMatch {
        return InLedger;
      }
      invoices := invoices[id := invoices[id].(status := Cancelled)];
      return Done;
    }

    /** The sum of the payments of one invoice among the first rows of a table. */
    method SumPayments(rows: seq<Payment>, id: string) returns (sum: int)
      ensures sum == SumBy(rows, PaidOn(id))
    {
      sum := 0;
      for i := 0 to |rows|
        invariant sum == SumBy(rows[..i], PaidOn(id))
      {
        assert rows[..i + 1][..i] == rows[..i];
        if rows[i].invoice == id {
          sum := sum + rows[i].amount;
        }
      }
      assert rows[..|rows|] == rows;
    }

    /** The payment is committed before its event is queued; a queue failure undoes nothing. */
    method RecordPayment(id: string, amount: int, run: Option<nat>, queued: bool) returns (outcome: Outcome)
      modifies this
      ensures View() == AfterPayment(old(View()), id, amount, run)
      ensures outcome ==
              if id !in old(invoices) then NotFound
              else if old(invoices)[id].status !in {Approved, PartiallyPaid} then NotApproved
              else if queued then Done else NotQueued
      ensures outcome in {NotFound, NotApproved} ==> View() == old(View())
      ensures outcome in {Done, NotQueued} ==>
                && payments == old(payments) + [Payment(id, run, Stored(amount))] && approvals == old(approvals)
                && var inv, paid := old(invoices)[id], SumBy(old(payments), PaidOn(id)) + amount;
                   invoices == old(invoices)[id := inv.(status :=
                     if paid >= inv.total then Paid else if paid > 0 then PartiallyPaid else inv.status)]
    {
      if id !in invoices {
        return NotFound;
      }
      var invoice := invoices[id];
      if invoice.status != Approved && invoice.status != PartiallyPaid {
        return NotApproved;
      }
      var priorPaid := SumPayments(payments, id);
      payments := payments + [Payment(id, run, Stored(amount))];
      var totalPaid := priorPaid + amount;
      var newStatus := invoice.status;
      if totalPaid >= invoice.total {
        newStatus := Paid;
      } else if totalPaid > 0 {
        newStatus := PartiallyPaid;
      }
      invoices := invoices[id := invoice.(status := newStatus)];
      return if queued then Done else NotQueued;
    }

    /** One pass of the batch loop: the balance is the snapshot's, the status check the current one. */
    method SettleFromSnapshot(
      id: string, run: nat, queued: bool, invoiceById: map<string, Invoice>, paymentRows: seq<Payment>,
      ghost start: Books, ghost front: seq<string>) returns (result: RunResult)
      requires invoiceById == start.invoices && paymentRows == start.payments
      requires View() == AfterBatch(start, front, run)
      modifies this
      ensures View() == AfterBatch(start, front + [id], run)
      ensures result.invoice == id
      ensures result.paid <==> Settles(start, id) && id !in front && queued
      ensures result.paid ==> result.amount == Balance(start, id)
    {
      BatchStep(start, front, id, run);
      result := RunResult(id, false, 0);
      if id in invoiceById && (invoiceById[id].status == Approved || invoiceById[id].status == PartiallyPaid) {
        var priorPaid := SumPayments(paymentRows, id);
        var balanceDue := invoiceById[id].total - priorPaid;
        if balanceDue > 0 {
          var outcome := RecordPayment(id, balanceDue, Some(run), queued);
          if outcome == Done {
            result := RunResult(id, true, balanceDue);
          }
        }
      }
    }

    /**
     * Settles the listed invoices one by one from a snapshot taken at the start. A payment is made
     * at position i exactly when its invoice was settleable at the start and does not occur
     * earlier, and reported exactly when the queue also accepts its event; `queued` says where.
     */
    method RunPaymentBatch(ids: seq<string>, run: nat, queued: seq<bool>)
      returns (results: seq<RunResult>, paidCount: int, failedCount: int, totalPaid: int)
      requires |queued| == |ids|
      modifies this
      ensures View() == AfterBatch(old(View()), ids, run)
      ensures Reports(old(View()), ids, queued, results)
      ensures paidCount + failedCount == |ids|
      ensures paidCount == SumBy(results, CountOf(true)) == |set i | 0 <= i < |results| && results[i].paid|
      ensures totalPaid == SumBy(results, AmountOf())
    {
      ghost var start := View();
      var invoiceById, paymentRows := invoices, payments;
      results := [];
      assert AfterBatch(start, ids[..0], run) == start;
      for i := 0 to |ids|
        invariant View() == AfterBatch(start, ids[..i], run)
        invariant Reports(start, ids[..i], queued[..i], results)
      {
        assert ids[..i + 1] == ids[..i] + [ids[i]] && queued[..i + 1] == queued[..i] + [queued[i]];
        var result := SettleFromSnapshot(ids[i], run, queued[i], invoiceById, paymentRows, start, ids[..i]);
        ReportsExtend(start, ids[..i], queued[..i], results, ids[i], queued[i], result);
        results := results + [result];
      }
      assert ids[..|ids|] == ids && queued[..|ids|] == queued;
      CountsAddUp(results);
      CountsThePaid(results);
      paidCount := SumBy(results, CountOf(true));
      failedCount := SumBy(results, CountOf(false));
      totalPaid := SumBy(results, AmountOf());
    }
  }

  lemma {:induction false} CountsAddUp(results: seq<RunResult>)
    ensures SumBy(results, CountOf(true)) + SumBy(results, CountOf(false)) == |results|
  {
    if |results| > 0 {
      CountsAddUp(results[..|results| - 1]);
    }
  }

  lemma {:induction false} CountsThePaid(results: seq<RunResult>)
    ensures SumBy(results, CountOf(true)) == |set i | 0 <= i < |results| && results[i].paid|
  {
    var paid := set i | 0 <= i < |results| && results[i].paid;
    if |results| > 0 {
      var n := |results| - 1;
      CountsThePaid(results[..n]);
      var before := set i | 0 <= i < n && results[..n][i].paid;
      assert before == set i | 0 <= i < n && results[i].paid;
      assert paid == if results[n].paid then before + {n} else before;
    }
  }

  lemma ReportsExtend(
    b: Books, front: seq<string>, queued: seq<bool>, results: seq<RunResult>, id: string, now: bool, result: RunResult)
    requires Reports(b, front, queued, results)
    requires result.invoice == id && (result.paid <==> Settles(b, id) && id !in front && now)
    requires result.paid ==> result.amount == Balance(b, id)
    ensures Reports(b, front + [id], queued + [now], results + [result])
  {
    var ids := front + [id];
    assert forall k :: 0 <= k <= |front| ==> ids[..k] == front[..k];
  }

  /** Until its first occurrence, a batch adds nothing to an invoice; afterwards its balance once. */
  lemma {:induction false} BatchPaidOn(b: Books, ids: seq<string>, run: nat, id: string)
    ensures SumBy(BatchPayments(b, ids, run), PaidOn(id)) == if id in ids && Settles(b, id) then Balance(b, id) else 0
  {
    if |ids| > 0 {
      var front, last := ids[..|ids| - 1], ids[|ids| - 1];
      BatchPaidOn(b, front, run, id);
      assert ids == front + [last];
      if Settles(b, last) && last !in front {
        BalanceIsStored(b, last);
        SumByAppend(BatchPayments(b, front, run), Payment(last, Some(run), Balance(b, last)), PaidOn(id));
      } else {
        assert BatchPayments(b, front, run) + [] == BatchPayments(b, front, run);
      }
    }
  }

  lemma PaidAfterBatch(b: Books, ids: seq<string>, run: nat, id: string)
    ensures PaidTotal(AfterBatch(b, ids, run), id) ==
            PaidTotal(b, id) + if id in ids && Settles(b, id) then Balance(b, id) else 0
  {
    SumByConcat(b.payments, BatchPayments(b, ids, run), PaidOn(id));
    BatchPaidOn(b, ids, run, id);
  }

  /** One more id: it is paid by the batch's snapshot amount when it is new, and refused otherwise. */
  lemma BatchStep(b: Books, front: seq<string>, id: string, run: nat)
    ensures var now, next := AfterBatch(b, front, run), AfterBatch(b, front + [id], run);
            if Settles(b, id) && id !in front then
              && id in now.invoices && Payable(now.invoices[id].status)
              && next == AfterPayment(now, id, Balance(b, id), Some(run))
            else
              && next == now
              && (Settles(b, id) ==> !Payable(now.invoices[id].status))
  {
    var now, next := AfterBatch(b, front, run), AfterBatch(b, front + [id], run);
    assert (front + [id])[..|front|] == front;
    PaidAfterBatch(b, front, run, id);
    if Settles(b, id) && id !in front {
      var paid := AfterPayment(now, id, Balance(b, id), Some(run));
      assert next.invoices == paid.invoices;
      assert next.payments == paid.payments;
    } else {
      assert next.invoices == now.invoices;
      assert next.payments == now.payments;
    }
  }
}
