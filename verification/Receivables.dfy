/**
 * Sales orders, their receivable invoices and the payments that settle them. Tables hold amounts
 * with four decimals; the settlement test of a payment sees the amount as it was given.
 */
module Receivables {
  import opened Prelude

  datatype OrderStatus = Confirmed | Invoiced | Fulfilled

  datatype InvoiceStatus = Approved | PartiallyPaid | Paid

  datatype SalesLine = SalesLine(quantity: int, unitPrice: int)

  datatype SalesOrder = SalesOrder(status: OrderStatus, total: Money)

  datatype Invoice = Invoice(id: string, order: Option<string>, total: Money, status: InvoiceStatus)

  datatype Payment = Payment(invoice: string, amount: Money)

  datatype Books = Books(orders: map<string, SalesOrder>, invoices: seq<Invoice>, payments: seq<Payment>)

  datatype Outcome = Done | NotFound | AlreadyInvoiced

  datatype Reconciliation = Reconciliation(orderTotal: int, totalPaid: int, balanceDue: int, fullyReconciled: bool)

  function LineTotal(): SalesLine -> int {
    (l: SalesLine) => l.quantity * l.unitPrice
  }

  /** The sum of quantity times unit price over the lines. */
  ghost function OrderTotal(lines: seq<SalesLine>): int {
    if |lines| == 0 then 0 else lines[0].quantity * lines[0].unitPrice + OrderTotal(lines[1..])
  }

  lemma {:induction false} LineTotalsAddUp(lines: seq<SalesLine>)
    ensures SumBy(lines, LineTotal()) == OrderTotal(lines)
  {
    if |lines| > 0 {
      SumByHead(lines, LineTotal());
      LineTotalsAddUp(lines[1..]);
    }
  }

  function PaidOn(invoice: string): Payment -> int {
    (p: Payment) => if p.invoice == invoice then p.amount else 0
  }

  function PaidAmount(payments: seq<Payment>, invoice: string): int {
    SumBy(payments, PaidOn(invoice))
  }

  function PaidForOrder(payments: seq<Payment>, order: string): Invoice -> int {
    (i: Invoice) => if i.order == Some(order) then PaidAmount(payments, i.id) else 0
  }

  /** Everything paid on the invoices of one order. */
  function OrderPaid(b: Books, order: string): int {
    SumBy(b.invoices, PaidForOrder(b.payments, order))
  }

  function StatusAfter(s: InvoiceStatus, paid: int, total: int): InvoiceStatus {
    if paid >= total then Paid else if paid > 0 then PartiallyPaid else s
  }

  ghost predicate IsInvoice(b: Books, id: string, k: int) {
    0 <= k < |b.invoices| && b.invoices[k].id == id
  }

  // ---------------------------------------------------------------------------------------
  // Steps

  ghost function AfterOrder(b: Books, id: string, lines: seq<SalesLine>): Books {
    b.(orders := b.orders[id := SalesOrder(Confirmed, Stored(SumBy(lines, LineTotal())))])
  }

  ghost function AfterOrderInvoice(b: Books, id: string, order: string): Books {
    if order !in b.orders || b.orders[order].status != Confirmed then b
    else b.(invoices := b.invoices + [Invoice(id, Some(order), b.orders[order].total, Approved)],
            orders := b.orders[order := b.orders[order].(status := Invoiced)])
  }

  ghost function AfterInvoice(b: Books, id: string, total: int): Books {
    b.(invoices := b.invoices + [Invoice(id, None, Stored(total), Approved)])
  }

  ghost function AfterPaymentOn(b: Books, k: nat, amount: int): Books
    requires k < |b.invoices|
  {
    var inv := b.invoices[k];
    var status := StatusAfter(inv.status, PaidAmount(b.payments, inv.id) + amount, inv.total);
    Books(
      if inv.order.Some? && inv.order.value in b.orders && status == Paid
      then b.orders[inv.order.value := b.orders[inv.order.value].(status := Fulfilled)] else b.orders,
      b.invoices[k := inv.(status := status)],
      b.payments + [Payment(inv.id, Stored(amount))])
  }

  ghost predicate PaymentStep(b: Books, id: string, amount: int, after: Books) {
    if exists k :: IsInvoice(b, id, k) then exists k :: IsInvoice(b, id, k) && after == AfterPaymentOn(b, k, amount)
    else after == b
  }

  class ReceivablesService {
    var orders: map<string, SalesOrder>
    var invoices: seq<Invoice>
    var payments: seq<Payment>

    ghost function View(): Books
      reads this
    {
      Books(orders, invoices, payments)
    }

    constructor ()
      ensures View() == Books(map[], [], [])
    {
      orders, invoices, payments := map[], [], [];
    }

    method CreateSalesOrder(id: string, customerActive: bool, lines: seq<SalesLine>) returns (outcome: Outcome)
      requires id !in orders
      modifies this
      ensures outcome == if customerActive then Done else NotFound
      ensures View() == if customerActive then AfterOrder(old(View()), id, lines) else old(View())
      ensures outcome == Done ==> orders == old(orders)[id := SalesOrder(Confirmed, Stored(OrderTotal(lines)))]
    {
      LineTotalsAddUp(lines);
      if !customerActive {
        return NotFound;
      }
      var totalAmount := SumBy(lines, LineTotal());
      orders := orders[id := SalesOrder(Confirmed, Stored(totalAmount))];
      return Done;
    }

    method CreateInvoiceFromOrder(id: string, order: string) returns (outcome: Outcome)
      modifies this
      ensures View() == AfterOrderInvoice(old(View()), id, order)
      ensures outcome ==
              if order !in old(orders) then NotFound
              else if old(orders)[order].status == Confirmed then Done else AlreadyInvoiced
    {
      if order !in orders {
        return NotFound;
      }
      if orders[order].status == Invoiced || orders[order].status == Fulfilled {
        return AlreadyInvoiced;
      }
      invoices := invoices + [Invoice(id, Some(order), orders[order].total, Approved)];
      orders := orders[order := orders[order].(status := Invoiced)];
      return Done;
    }

    /** An invoice that belongs to no sales order. */
    method CreateInvoice(id: string, total: int)
      modifies this
      ensures View() == AfterInvoice(old(View()), id, total)
    {
      invoices := invoices + [Invoice(id, None, Stored(total), Approved)];
    }

    method RecordPayment(id: string, amount: int) returns (outcome: Outcome)
      modifies this
      ensures PaymentStep(old(View()), id, amount, View())
      ensures outcome == if exists k :: IsInvoice(old(View()), id, k) then Done else NotFound
    {
      var k := 0;
      while k < |invoices| && invoices[k].id != id
        invariant k <= |invoices|
        invariant forall j :: 0 <= j < k ==> invoices[j].id != id
      {
        k := k + 1;
      }
      if k == |invoices| {
        return NotFound;
      }
      assert IsInvoice(old(View()), id, k);
      var invoice := invoices[k];
      var priorPaid := PaidAmount(payments, invoice.id);
      payments := payments + [Payment(id, Stored(amount))];
      var totalPaid := priorPaid + amount;
      var newStatus := invoice.status;
      if totalPaid >= invoice.total {
        newStatus := Paid;
      } else if totalPaid > 0 {
        newStatus := PartiallyPaid;
      }
      invoices := invoices[k := invoice.(status := newStatus)];
      if invoice.order.Some? && invoice.order.value in orders && newStatus == Paid {
        orders := orders[invoice.order.value := orders[invoice.order.value].(status := Fulfilled)];
      }
      return Done;
    }

    method GetReconciliation(order: string) returns (r: Option<Reconciliation>)
      ensures r.Some? <==> order in orders
      ensures r.Some? ==>
                && r.value.orderTotal == orders[order].total
                && r.value.totalPaid == OrderPaid(View(), order)
                && (r.value.fullyReconciled <==> FullyReconciled(View(), order))
                && (if r.value.totalPaid >= r.value.orderTotal then r.value.balanceDue == 0
                    else r.value.totalPaid + r.value.balanceDue == r.value.orderTotal)
    {
      if order !in orders {
        return None;
      }
      var orderTotal := orders[order].total;
      var totalPaid := SumBy(invoices, PaidForOrder(payments, order));
      var balanceDue := if orderTotal - totalPaid > 0 then orderTotal - totalPaid else 0;
      return Some(Reconciliation(orderTotal, totalPaid, balanceDue, totalPaid >= orderTotal && orderTotal > 0));
    }
  }

  ghost predicate FullyReconciled(b: Books, order: string)
    requires order in b.orders
  {
    OrderPaid(b, order) >= b.orders[order].total && b.orders[order].total > 0
  }

  // ---------------------------------------------------------------------------------------
  // What every run keeps

  datatype Op =
    | NewOrder(id: string, lines: seq<SalesLine>)
    | InvoiceOrder(id: string, order: string)
    | NewInvoice(id: string, total: int)
    | Pay(invoice: string, amount: int)

  ghost predicate Step(b: Books, op: Op, after: Books) {
    match op
    case NewOrder(id, lines) => after == AfterOrder(b, id, lines)
    case InvoiceOrder(id, order) => after == AfterOrderInvoice(b, id, order)
    case NewInvoice(id, total) => after == AfterInvoice(b, id, total)
    case Pay(id, amount) => PaymentStep(b, id, amount, after)
  }

  /** Generated ids are new and payments are positive. */
  ghost predicate Admissible(b: Books, op: Op) {
    match op
    case NewOrder(id, _) => id !in b.orders
    case InvoiceOrder(id, _) => forall k :: !IsInvoice(b, id, k)
    case NewInvoice(id, _) => forall k :: !IsInvoice(b, id, k)
    case Pay(_, amount) => amount > 0
  }

  ghost predicate HasPayment(b: Books, id: string) {
    exists i :: 0 <= i < |b.payments| && b.payments[i].invoice == id
  }

  /** PAID invoices are covered; an invoice that asks for nothing is PAID once anything is paid on it. */
  ghost predicate InvoiceOk(b: Books, k: nat)
    requires k < |b.invoices|
  {
    var inv := b.invoices[k];
    var paid := PaidAmount(b.payments, inv.id);
    && paid >= 0
    && (inv.status == Paid ==> HasPayment(b, inv.id) && paid >= inv.total)
    && (HasPayment(b, inv.id) && inv.total <= 0 ==> inv.status == Paid)
    && (inv.order.Some? ==>
          && inv.order.value in b.orders
          && b.orders[inv.order.value].total == inv.total
          && b.orders[inv.order.value].status == if inv.status == Paid then Fulfilled else Invoiced)
  }

  ghost predicate Inv(b: Books) {
    && (forall k :: 0 <= k < |b.invoices| ==> InvoiceOk(b, k))
    && (forall i, j :: 0 <= i < j < |b.invoices| ==> b.invoices[i].id != b.invoices[j].id)
    // an order has at most one invoice, and one exactly when it is past CONFIRMED
    && (forall i, j :: 0 <= i < j < |b.invoices| && b.invoices[i].order.Some? ==>
          b.invoices[i].order != b.invoices[j].order)
    && (forall o :: o in b.orders && b.orders[o].status != Confirmed ==> exists k :: IsInvoiceOf(b, o, k))
    && (forall p :: p in b.payments ==> exists k :: IsInvoice(b, p.invoice, k))
  }

  ghost predicate IsInvoiceOf(b: Books, order: string, k: int) {
    0 <= k < |b.invoices| && b.invoices[k].order == Some(order)
  }

  lemma NewOrderKeepsInv(b: Books, id: string, lines: seq<SalesLine>)
    requires Inv(b) && id !in b.orders
    ensures Inv(AfterOrder(b, id, lines))
  {
    var after := AfterOrder(b, id, lines);
    forall k | 0 <= k < |after.invoices|
      ensures InvoiceOk(after, k)
    {
      assert InvoiceOk(b, k);
    }
    forall o | o in after.orders && after.orders[o].status != Confirmed
      ensures exists k :: IsInvoiceOf(after, o, k)
    {
      var k :| IsInvoiceOf(b, o, k);
      assert IsInvoiceOf(after, o, k);
    }
    assert forall p, k :: IsInvoice(b, p, k) ==> IsInvoice(after, p, k);
  }

  lemma NewInvoiceIsUnpaid(b: Books, id: string)
    requires Inv(b) && forall k :: !IsInvoice(b, id, k)
    ensures PaidAmount(b.payments, id) == 0 && !HasPayment(b, id)
  {
    forall i | 0 <= i < |b.payments|
      ensures b.payments[i].invoice != id
    {
      assert b.payments[i] in b.payments;
    }
    SumByZero(b.payments, PaidOn(id));
  }

  lemma PaidIsStored(payments: seq<Payment>, id: string)
    ensures PaidAmount(payments, id) % COLUMN_STEP == 0
  {
    SumByStored(payments, PaidOn(id));
  }

  lemma HasPaymentAppend(b: Books, p: Payment, after: Books, id: string)
    requires after.payments == b.payments + [p]
    ensures HasPayment(after, id) <==> HasPayment(b, id) || p.invoice == id
  {
    if HasPayment(b, id) {
      var i :| 0 <= i < |b.payments| && b.payments[i].invoice == id;
      assert after.payments[i] == b.payments[i];
    }
    assert after.payments[|b.payments|] == p;
  }

  /** Adding an invoice row with a new id. */
  lemma NewInvoiceKeepsInv(b: Books, inv: Invoice, after: Books)
    requires Inv(b) && forall k :: !IsInvoice(b, inv.id, k)
    requires inv.status == Approved && after.invoices == b.invoices + [inv] && after.payments == b.payments
    requires if inv.order.None? then after.orders == b.orders else
               && inv.order.value in b.orders && b.orders[inv.order.value] == SalesOrder(Confirmed, inv.total)
               && after.orders == b.orders[inv.order.value := SalesOrder(Invoiced, inv.total)]
    ensures Inv(after)
  {
    var n := |b.invoices|;
    NewInvoiceIsUnpaid(b, inv.id);
    forall k | 0 <= k < |after.invoices|
      ensures InvoiceOk(after, k)
      ensures k < n ==> after.invoices[k].id != inv.id
      ensures k < n && inv.order.Some? ==> after.invoices[k].order != inv.order
    {
      if k < n {
        assert InvoiceOk(b, k) && !IsInvoice(b, inv.id, k);
      }
    }
    forall o | o in after.orders && after.orders[o].status != Confirmed
      ensures exists k :: IsInvoiceOf(after, o, k)
    {
      if inv.order == Some(o) {
        assert IsInvoiceOf(after, o, n);
      } else {
        var k :| IsInvoiceOf(b, o, k);
        assert IsInvoiceOf(after, o, k);
      }
    }
    assert forall p, k :: IsInvoice(b, p, k) ==> IsInvoice(after, p, k);
  }

  /** The invoice that a payment settles or does not. */
  lemma PaymentOnInvoice(b: Books, k: nat, amount: int)
    requires Inv(b) && k < |b.invoices| && amount > 0
    ensures var after, inv := AfterPaymentOn(b, k, amount), b.invoices[k];
            var prior := PaidAmount(b.payments, inv.id);
            && InvoiceOk(after, k)
            && PaidAmount(after.payments, inv.id) == prior + Stored(amount)
            && (after.invoices[k].status == Paid <==> prior + amount >= inv.total)
  {
    var after, inv := AfterPaymentOn(b, k, amount), b.invoices[k];
    assert InvoiceOk(b, k);
    PaidIsStored(b.payments, inv.id);
    SettlementTestsAgreeIff(inv.total, PaidAmount(b.payments, inv.id), amount);
    StoredIsNear(amount);
    SumByAppend(b.payments, Payment(inv.id, Stored(amount)), PaidOn(inv.id));
    HasPaymentAppend(b, Payment(inv.id, Stored(amount)), after, inv.id);
  }

  /** Every other invoice stays as it was. */
  lemma PaymentElsewhere(b: Books, k: nat, amount: int, i: nat)
    requires Inv(b) && k < |b.invoices| && i < |b.invoices| && i != k && amount > 0
    ensures InvoiceOk(AfterPaymentOn(b, k, amount), i)
  {
    var after, inv := AfterPaymentOn(b, k, amount), b.invoices[k];
    assert InvoiceOk(b, i) && InvoiceOk(b, k);
    SumByAppend(b.payments, Payment(inv.id, Stored(amount)), PaidOn(b.invoices[i].id));
    HasPaymentAppend(b, Payment(inv.id, Stored(amount)), after, b.invoices[i].id);
  }

  lemma PaymentKeepsInv(b: Books, k: nat, amount: int)
    requires Inv(b) && k < |b.invoices| && amount > 0
    ensures Inv(AfterPaymentOn(b, k, amount))
  {
    var after, inv := AfterPaymentOn(b, k, amount), b.invoices[k];
    forall i | 0 <= i < |after.invoices|
      ensures InvoiceOk(after, i)
    {
      if i == k {
        PaymentOnInvoice(b, k, amount);
      } else {
        PaymentElsewhere(b, k, amount, i);
      }
    }
    assert forall i :: 0 <= i < |b.invoices| ==>
             after.invoices[i].id == b.invoices[i].id && after.invoices[i].order == b.invoices[i].order;
    forall o | o in after.orders && after.orders[o].status != Confirmed
      ensures exists i :: IsInvoiceOf(after, o, i)
    {
      assert InvoiceOk(b, k);
      var i :| IsInvoiceOf(b, o, i);
      assert IsInvoiceOf(after, o, i);
    }
    assert IsInvoice(after, inv.id, k);
    assert forall p, i :: IsInvoice(b, p, i) ==> IsInvoice(after, p, i);
  }

  lemma StepKeepsInv(b: Books, op: Op, after: Books)
    requires Inv(b) && Admissible(b, op) && Step(b, op, after)
    ensures Inv(after)
  {
    match op
    case NewOrder(id, lines) => NewOrderKeepsInv(b, id, lines);
    case InvoiceOrder(id, order) =>
      if after != b {
        NewInvoiceKeepsInv(b, Invoice(id, Some(order), b.orders[order].total, Approved), after);
      }
    case NewInvoice(id, total) => NewInvoiceKeepsInv(b, Invoice(id, None, Stored(total), Approved), after);
    case Pay(id, amount) =>
      if exists k :: IsInvoice(b, id, k) {
        var k :| IsInvoice(b, id, k) && after == AfterPaymentOn(b, k, amount);
        PaymentKeepsInv(b, k, amount);
      }
  }

  ghost predicate Follows(ops: seq<Op>, trace: seq<Books>, i: int) {
    && 0 <= i < |ops| && i + 1 < |trace|
    && Admissible(trace[i], ops[i]) && Step(trace[i], ops[i], trace[i + 1])
  }

  ghost predicate IsRun(ops: seq<Op>, trace: seq<Books>) {
    && |trace| == |ops| + 1
    && trace[0] == Books(map[], [], [])
    && forall i :: 0 <= i < |ops| ==> Follows(ops, trace, i)
  }

  lemma {:induction false} RunKeepsInv(ops: seq<Op>, trace: seq<Books>, n: nat)
    requires IsRun(ops, trace) && n < |trace|
    ensures Inv(trace[n])
    decreases n
  {
    if n > 0 {
      RunKeepsInv(ops, trace, n - 1);
      assert Follows(ops, trace, n - 1);
      StepKeepsInv(trace[n - 1], ops[n - 1], trace[n]);
    }
  }

  lemma {:induction false} PaymentsAreNotNegative(ops: seq<Op>, trace: seq<Books>, n: nat)
    requires IsRun(ops, trace) && n < |trace|
    ensures forall p :: p in trace[n].payments ==> p.amount >= 0
    decreases n
  {
    if n > 0 {
      PaymentsAreNotNegative(ops, trace, n - 1);
      assert Follows(ops, trace, n - 1);
      if ops[n - 1].Pay? {
        StoredIsNear(ops[n - 1].amount);
      }
    }
  }

  lemma PaidOnItsOnlyInvoice(b: Books, order: string, k: nat)
    requires Inv(b) && IsInvoiceOf(b, order, k)
    ensures OrderPaid(b, order) == PaidAmount(b.payments, b.invoices[k].id)
    ensures forall j :: IsInvoiceOf(b, order, j) ==> j == k
  {
    forall j | 0 <= j < |b.invoices| && j != k
      ensures b.invoices[j].order != Some(order)
    {
    }
    SumBySingle(b.invoices, k, PaidForOrder(b.payments, order));
  }

  lemma UninvoicedOrderIsUnpaid(b: Books, order: string)
    requires forall k :: !IsInvoiceOf(b, order, k)
    ensures OrderPaid(b, order) == 0
  {
    forall i | 0 <= i < |b.invoices|
      ensures PaidForOrder(b.payments, order)(b.invoices[i]) == 0
    {
      assert !IsInvoiceOf(b, order, i);
    }
    SumByZero(b.invoices, PaidForOrder(b.payments, order));
  }

  // ---------------------------------------------------------------------------------------
  // When status and rows disagree

  /** The payment rows cover a positive total, and yet the invoice was not marked PAID. */
  ghost predicate Lags(b: Books, id: string) {
    exists k :: IsInvoice(b, id, k) && b.invoices[k].total > 0 && b.invoices[k].status != Paid
                && PaidAmount(b.payments, id) >= b.invoices[k].total
  }

  /** Step `i` pays on an existing invoice. */
  ghost predicate PaysOn(ops: seq<Op>, trace: seq<Books>, i: int, id: string) {
    && 0 <= i < |ops| && i < |trace| && ops[i].Pay? && ops[i].invoice == id
    && exists k :: IsInvoice(trace[i], id, k)
  }

  ghost predicate PaysShort(ops: seq<Op>, trace: seq<Books>, i: int, id: string) {
    && PaysOn(ops, trace, i, id)
    && exists k :: IsInvoice(trace[i], id, k) && trace[i].invoices[k].total > 0
                   && FallsShort(trace[i].invoices[k].total, PaidAmount(trace[i].payments, id), ops[i].amount)
  }

  /** The last payment on the invoice before point `n` fell short of its total. */
  ghost predicate LastPaymentFellShort(ops: seq<Op>, trace: seq<Books>, n: int, id: string) {
    exists i :: i < n && PaysShort(ops, trace, i, id) && forall j :: i < j < n ==> !PaysOn(ops, trace, j, id)
  }

  lemma LastPaymentStep(ops: seq<Op>, trace: seq<Books>, n: nat, id: string)
    ensures LastPaymentFellShort(ops, trace, n + 1, id) <==>
            PaysShort(ops, trace, n, id)
            || (!PaysOn(ops, trace, n, id) && LastPaymentFellShort(ops, trace, n, id))
  {
    if PaysShort(ops, trace, n, id) {
      assert forall j :: n < j < n + 1 ==> !PaysOn(ops, trace, j, id);
    } else if !PaysOn(ops, trace, n, id) && LastPaymentFellShort(ops, trace, n, id) {
      var i :| i < n && PaysShort(ops, trace, i, id) && forall j :: i < j < n ==> !PaysOn(ops, trace, j, id);
      assert forall j :: i < j < n + 1 ==> !PaysOn(ops, trace, j, id);
    }
  }

  /** A step that does not pay on the invoice leaves it lagging or not, as it was. */
  lemma OtherStepsKeepLag(b: Books, op: Op, after: Books, id: string)
    requires Inv(b) && Admissible(b, op) && Step(b, op, after)
    requires !(op.Pay? && op.invoice == id && exists k :: IsInvoice(b, id, k))
    ensures Lags(after, id) <==> Lags(b, id)
  {
    assert PaidAmount(after.payments, id) == PaidAmount(b.payments, id) by {
      if op.Pay? && after != b {
        var k :| IsInvoice(b, op.invoice, k) && after == AfterPaymentOn(b, k, op.amount);
        SumByAppend(b.payments, Payment(op.invoice, Stored(op.amount)), PaidOn(id));
      }
    }
    forall k | IsInvoice(b, id, k)
      ensures IsInvoice(after, id, k) && after.invoices[k] == b.invoices[k]
    {
    }
    forall k | IsInvoice(after, id, k) && !IsInvoice(b, id, k)
      ensures after.invoices[k].total > 0 ==> PaidAmount(after.payments, id) < after.invoices[k].total
    {
      assert k == |b.invoices|;
      NewInvoiceIsUnpaid(b, id);
    }
  }

  /** A payment on the invoice leaves it lagging exactly when it falls short. */
  lemma PaymentLagsIff(b: Books, k: nat, amount: int)
    requires Inv(b) && k < |b.invoices| && amount > 0
    ensures var after, inv := AfterPaymentOn(b, k, amount), b.invoices[k];
            Lags(after, inv.id) <==> inv.total > 0 && FallsShort(inv.total, PaidAmount(b.payments, inv.id), amount)
  {
    var after, inv := AfterPaymentOn(b, k, amount), b.invoices[k];
    assert InvoiceOk(b, k);
    PaymentOnInvoice(b, k, amount);
    PaidIsStored(b.payments, inv.id);
    SettlementTestsAgreeIff(inv.total, PaidAmount(b.payments, inv.id), amount);
    assert IsInvoice(after, inv.id, k);
    forall j | IsInvoice(after, inv.id, j)
      ensures j == k
    {
      assert b.invoices[j].id == b.invoices[k].id;
    }
  }

  /** In every run: an invoice lags exactly when the last payment on it fell short. */
  lemma {:induction false} LagsIffLastPaymentFellShort(ops: seq<Op>, trace: seq<Books>, n: nat, id: string)
    requires IsRun(ops, trace) && n < |trace|
    ensures Lags(trace[n], id) <==> LastPaymentFellShort(ops, trace, n, id)
    decreases n
  {
    if n > 0 {
      var m := n - 1;
      LagsIffLastPaymentFellShort(ops, trace, m, id);
      RunKeepsInv(ops, trace, m);
      assert Follows(ops, trace, m);
      LastPaymentStep(ops, trace, m, id);
      if PaysOn(ops, trace, m, id) {
        var k :| IsInvoice(trace[m], id, k) && trace[n] == AfterPaymentOn(trace[m], k, ops[m].amount);
        PaymentLagsIff(trace[m], k, ops[m].amount);
        forall j | IsInvoice(trace[m], id, j)
          ensures j == k
        {
        }
      } else {
        OtherStepsKeepLag(trace[m], ops[m], trace[n], id);
      }
    }
  }

  /** Anything at all was paid on the order, be it an amount that its row stores as zero. */
  ghost predicate PaymentMade(b: Books, order: string) {
    exists k :: IsInvoiceOf(b, order, k) && HasPayment(b, b.invoices[k].id)
  }

  /** The last payment on the order's invoice fell short. */
  ghost predicate OrderFellShort(ops: seq<Op>, trace: seq<Books>, n: int, order: string)
    requires 0 <= n < |trace|
  {
    exists k :: IsInvoiceOf(trace[n], order, k) && LastPaymentFellShort(ops, trace, n, trace[n].invoices[k].id)
  }

  /**
   * In every reachable state an order has at most one invoice, with the order's total; it is
   * FULFILLED exactly when that invoice is PAID. FULFILLED agrees with full reconciliation exactly
   * when nothing was paid, or the total is positive and the last payment did not fall short of it.
   */
  lemma OrderReconciliation(ops: seq<Op>, trace: seq<Books>, n: nat, order: string)
    requires IsRun(ops, trace) && n < |trace| && order in trace[n].orders
    ensures var b := trace[n];
            && (forall i, j :: IsInvoiceOf(b, order, i) && IsInvoiceOf(b, order, j) ==> i == j)
            && (forall k :: IsInvoiceOf(b, order, k) ==> b.invoices[k].total == b.orders[order].total)
            && (b.orders[order].status == Confirmed <==> forall k :: !IsInvoiceOf(b, order, k))
            && (b.orders[order].status == Fulfilled <==>
                exists k :: IsInvoiceOf(b, order, k) && b.invoices[k].status == Paid)
            && ((b.orders[order].status == Fulfilled <==> FullyReconciled(b, order)) <==>
                !PaymentMade(b, order) || (b.orders[order].total > 0 && !OrderFellShort(ops, trace, n, order)))
  {
    var b := trace[n];
    RunKeepsInv(ops, trace, n);
    if exists k :: IsInvoiceOf(b, order, k) {
      var k :| IsInvoiceOf(b, order, k);
      PaidOnItsOnlyInvoice(b, order, k);
      assert InvoiceOk(b, k);
      LagsIffLastPaymentFellShort(ops, trace, n, b.invoices[k].id);
      LagsIs(b, k);
      UnpaidHasNothing(b, b.invoices[k].id);
    } else {
      UninvoicedOrderIsUnpaid(b, order);
    }
  }

  lemma LagsIs(b: Books, k: nat)
    requires Inv(b) && k < |b.invoices|
    ensures var inv := b.invoices[k];
            Lags(b, inv.id) <==>
            inv.total > 0 && inv.status != Paid && PaidAmount(b.payments, inv.id) >= inv.total
  {
    var id := b.invoices[k].id;
    assert IsInvoice(b, id, k);
    forall j | IsInvoice(b, id, j)
      ensures j == k
    {
    }
  }

  lemma UnpaidHasNothing(b: Books, id: string)
    ensures !HasPayment(b, id) ==> PaidAmount(b.payments, id) == 0
  {
    if !HasPayment(b, id) {
      SumByZero(b.payments, PaidOn(id));
    }
  }

  // ---------------------------------------------------------------------------------------
  // Runs in which they disagree

  lemma RunExtends(ops: seq<Op>, trace: seq<Books>, op: Op, after: Books)
    requires IsRun(ops, trace) && Admissible(trace[|ops|], op) && Step(trace[|ops|], op, after)
    ensures IsRun(ops + [op], trace + [after])
  {
    var ops', trace' := ops + [op], trace + [after];
    forall i | 0 <= i < |ops'|
      ensures Follows(ops', trace', i)
    {
      assert i < |ops| ==> Follows(ops, trace, i);
    }
    assert trace'[0] == trace[0];
  }

  /** One order for a single line, invoiced and paid once. */
  lemma OneOrderPaidOnce(order: string, invoice: string, line: SalesLine, amount: int)
    returns (ops: seq<Op>, trace: seq<Books>)
    requires amount > 0
    ensures ops == [NewOrder(order, [line]), InvoiceOrder(invoice, order), Pay(invoice, amount)]
    ensures IsRun(ops, trace)
    ensures var total := Stored(LineTotal()(line));
            var paid := amount >= total;
            trace[3] == Books(map[order := SalesOrder(if paid then Fulfilled else Invoiced, total)],
                              [Invoice(invoice, Some(order), total, if paid then Paid else PartiallyPaid)],
                              [Payment(invoice, Stored(amount))])
  {
    var op0, op1, op2 := NewOrder(order, [line]), InvoiceOrder(invoice, order), Pay(invoice, amount);
    SumByAppend([], line, LineTotal());
    assert [] + [line] == [line];
    var b0 := Books(map[], [], []);
    var b1 := AfterOrder(b0, order, [line]);
    var b2 := AfterOrderInvoice(b1, invoice, order);
    assert IsInvoice(b2, invoice, 0);
    assert PaidAmount([], invoice) == 0;
    var b3 := AfterPaymentOn(b2, 0, amount);
    assert PaymentStep(b2, invoice, amount, b3);
    RunExtends([], [b0], op0, b1);
    RunExtends([op0], [b0, b1], op1, b2);
    RunExtends([op0, op1], [b0, b1, b2], op2, b3);
    ops, trace := [op0, op1, op2], [b0, b1, b2, b3];
    assert [] + [op0] == [op0] && [op0] + [op1] == [op0, op1] && [op0, op1] + [op2] == ops;
    assert [b0] + [b1] == [b0, b1] && [b0, b1] + [b2] == [b0, b1, b2] && [b0, b1, b2] + [b3] == trace;
  }

  /** What is paid on the single invoice of such books. */
  lemma SinglePaymentIsPaid(order: string, o: SalesOrder, inv: Invoice, amount: Money)
    requires inv.order == Some(order)
    ensures OrderPaid(Books(map[order := o], [inv], [Payment(inv.id, amount)]), order) == amount
  {
    var p := Payment(inv.id, amount);
    SumByAppend([], p, PaidOn(inv.id));
    assert [] + [p] == [p];
    SumByAppend([], inv, PaidForOrder([p], order));
    assert [] + [inv] == [inv];
  }

  /** A free order, once 0.0001 is paid on it, is FULFILLED and yet never fully reconciled. */
  lemma FreeOrderIsNeverReconciled(order: string, invoice: string, quantity: int)
    returns (ops: seq<Op>, trace: seq<Books>)
    ensures ops == [NewOrder(order, [SalesLine(quantity, 0)]), InvoiceOrder(invoice, order), Pay(invoice, COLUMN_STEP)]
    ensures IsRun(ops, trace)
    ensures order in trace[3].orders && trace[3].orders[order].status == Fulfilled
    ensures !FullyReconciled(trace[3], order)
  {
    assert LineTotal()(SalesLine(quantity, 0)) == 0;
    ops, trace := OneOrderPaidOnce(order, invoice, SalesLine(quantity, 0), COLUMN_STEP);
  }

  /**
   * An order for 100.0000 on which 99.99996 is paid: the row says 100.0000 and the reconciliation
   * is complete, but invoice and order stay PARTIALLY_PAID and INVOICED.
   */
  lemma ShortPaymentLeavesOrderOpen(order: string, invoice: string) returns (ops: seq<Op>, trace: seq<Books>)
    ensures ops == [NewOrder(order, [SalesLine(1_000_000, 1_000_000)]), InvoiceOrder(invoice, order),
                    Pay(invoice, 999_999_600_000)]
    ensures IsRun(ops, trace)
    ensures order in trace[3].orders && trace[3].orders[order].status == Invoiced
    ensures |trace[3].invoices| == 1 && trace[3].invoices[0].status == PartiallyPaid
    ensures trace[3].payments == [Payment(invoice, 1_000_000_000_000)] && FullyReconciled(trace[3], order)
  {
    var line := SalesLine(1_000_000, 1_000_000);
    assert LineTotal()(line) == 1_000_000_000_000;
    ops, trace := OneOrderPaidOnce(order, invoice, line, 999_999_600_000);
    SinglePaymentIsPaid(order, trace[3].orders[order], trace[3].invoices[0], 1_000_000_000_000);
  }
}
