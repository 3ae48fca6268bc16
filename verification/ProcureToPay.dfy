/** From the first goods receipt of an order to its invoice and the ledger entry behind it. */
module ProcureToPay {
  import opened Prelude
  import opened Purchasing
  import Inventory
  import InvoiceMatching
  import Payables
  import PurchaseRuns
  import GeneralLedger

  function LayerValue(): Inventory.Layer -> int {
    (l: Inventory.Layer) => Worth(l.quantity, l.unitCost)
  }

  ghost function EntryValue(lines: seq<OrderLine>): Entry -> int {
    (e: Entry) => if e.line < |lines| then Worth(StoredQuantity(e.quantity), lines[e.line].unitPrice) else 0
  }

  /** What has been received on an order, at its prices. */
  ghost function ReceivedWorth(lines: seq<OrderLine>): int {
    SumBy(lines, Payables.ReceivedValue())
  }

  ghost function LayersOf(lines: seq<OrderLine>, warehouse: string, es: seq<Entry>): seq<Inventory.Layer>
    requires EntriesFit(lines, es)
  {
    seq(|es|, i requires 0 <= i < |es| => assert es[i] in es;
      Inventory.Layer(Inventory.Key(lines[es[i].line].product, warehouse),
                      StoredQuantity(es[i].quantity), StoredQuantity(es[i].quantity), lines[es[i].line].unitPrice))
  }

  ghost predicate DistinctNamedProducts(lines: seq<OrderLine>) {
    && (forall i, j :: 0 <= i < j < |lines| ==> lines[i].product != lines[j].product)
    && (forall l :: l in lines ==> l.product != "")
  }

  // ---------------------------------------------------------------------------------------
  // Values

  lemma {:induction false} ReceiptCreatesLayers(
    b: Inventory.Books, lines: seq<OrderLine>, warehouse: string, es: seq<Entry>)
    requires EntriesFit(lines, es)
    ensures StockAfter(b, lines, warehouse, es).layers == b.layers + LayersOf(lines, warehouse, es)
  {
    if |es| > 0 {
      var front := es[..|es| - 1];
      ReceiptCreatesLayers(b, lines, warehouse, front);
      assert LayersOf(lines, warehouse, es) ==
             LayersOf(lines, warehouse, front) + [LayersOf(lines, warehouse, es)[|es| - 1]];
    } else {
      assert b.layers + [] == b.layers;
    }
  }

  lemma {:induction false} LayersAreWorthEntries(lines: seq<OrderLine>, warehouse: string, es: seq<Entry>)
    requires EntriesFit(lines, es)
    ensures SumBy(LayersOf(lines, warehouse, es), LayerValue()) == SumBy(es, EntryValue(lines))
  {
    if |es| > 0 {
      var front := es[..|es| - 1];
      LayersAreWorthEntries(lines, warehouse, front);
      var layers := LayersOf(lines, warehouse, es);
      assert layers[..|layers| - 1] == LayersOf(lines, warehouse, front);
      assert es[|es| - 1] in es;
    }
  }

  lemma WorthAdds(a: int, b: int, price: int)
    ensures Worth(a + b, price) == Worth(a, price) + Worth(b, price)
  {
  }

  lemma RaisedLineRaisesWorth(lines: seq<OrderLine>, i: nat, added: Quantity)
    requires i < |lines|
    ensures ReceivedWorth(lines[i := lines[i].(received := lines[i].received + added)]) ==
            ReceivedWorth(lines) + Worth(added, lines[i].unitPrice)
  {
    var l := lines[i];
    SumByUpdate(lines, i, l.(received := l.received + added), Payables.ReceivedValue());
    WorthAdds(l.received, added, l.unitPrice);
  }

  /** A receipt raises the received worth by the value of its entries. */
  lemma {:induction false} ReceiptRaisesWorth(lines: seq<OrderLine>, es: seq<Entry>)
    requires EntriesFit(lines, es)
    ensures ReceivedWorth(AfterEntries(lines, es)) == ReceivedWorth(lines) + SumBy(es, EntryValue(lines))
  {
    if |es| == 0 {
      assert AfterEntries(lines, es) == lines;
    } else {
      var front, e := es[..|es| - 1], es[|es| - 1];
      assert e in es && es == front + [e];
      ReceiptRaisesWorth(lines, front);
      AfterOneMore(lines, front, e);
      RaisedLineRaisesWorth(AfterEntries(lines, front), e.line, StoredQuantity(e.quantity));
      SumByAppend(front, e, EntryValue(lines));
    }
  }

  lemma {:induction false} EntriesHaveValue(lines: seq<OrderLine>, es: seq<Entry>)
    requires EntriesFit(lines, es) && (forall e :: e in es ==> StoredQuantity(e.quantity) > 0)
    requires forall l :: l in lines ==> l.unitPrice > 0
    ensures SumBy(es, EntryValue(lines)) >= |es|
  {
    if |es| > 0 {
      EntriesHaveValue(lines, es[..|es| - 1]);
      var e := es[|es| - 1];
      assert e in es && lines[e.line] in lines;
    }
  }

  /** Lines on which nothing arrived are worth nothing, so leaving them out changes no total. */
  lemma {:induction false} UnreceivedLinesAreWorthless(lines: seq<OrderLine>)
    requires forall l :: l in lines ==> l.received >= 0
    ensures SumBy(Payables.ReceivedLines(lines), Payables.ReceivedValue()) == ReceivedWorth(lines)
  {
    if |lines| > 0 {
      var front, l := lines[..|lines| - 1], lines[|lines| - 1];
      assert l in lines;
      UnreceivedLinesAreWorthless(front);
      if l.received > 0 {
        SumByAppend(Payables.ReceivedLines(front), l, Payables.ReceivedValue());
      }
    }
  }

  lemma {:induction false} NothingReceivedIsWorthNothing(lines: seq<OrderLine>)
    requires forall l :: l in lines ==> l.received == 0
    ensures ReceivedWorth(lines) == 0
  {
    if |lines| > 0 {
      NothingReceivedIsWorthNothing(lines[..|lines| - 1]);
      assert lines[|lines| - 1] in lines;
    }
  }

  // ---------------------------------------------------------------------------------------
  // The generated invoice matches

  lemma {:induction false} ReceivedLinesAreLines(lines: seq<OrderLine>)
    ensures forall l :: l in Payables.ReceivedLines(lines) <==> l in lines && l.received > 0
  {
    if |lines| > 0 {
      ReceivedLinesAreLines(lines[..|lines| - 1]);
      assert lines == lines[..|lines| - 1] + [lines[|lines| - 1]];
    }
  }

  lemma OwnLineIsCovered(lines: seq<OrderLine>, l: OrderLine)
    requires DistinctNamedProducts(lines) && l in lines && l.unitPrice > 0
    ensures InvoiceMatching.Covered(InvoiceMatching.InvoiceLine(Some(l.product), l.received, l.unitPrice), lines)
  {
    var i :| 0 <= i < |lines| && lines[i] == l;
    assert InvoiceMatching.IsFirstWith(lines, l.product, i);
    assert InvoiceMatching.CoveredBy(InvoiceMatching.InvoiceLine(Some(l.product), l.received, l.unitPrice), lines, i);
  }

  /** Received quantities come from a column, so the invoice's own columns change nothing. */
  lemma GeneratedLinesAreStored(po: InvoiceMatching.OrderDocument, receipt: string)
    ensures var dto := Payables.GeneratedInvoice(po, receipt); Payables.StoredLines(dto.lines) == dto.lines
  {
    var dto := Payables.GeneratedInvoice(po, receipt);
    var received := Payables.ReceivedLines(po.lines);
    forall i | 0 <= i < |dto.lines|
      ensures StoredQuantity(dto.lines[i].quantity) == dto.lines[i].quantity
    {
      StoredQuantityIsNear(received[i].received);
    }
  }

  lemma GeneratedInvoiceMatches(po: InvoiceMatching.OrderDocument, receipt: string)
    requires DistinctNamedProducts(po.lines)
    requires forall l :: l in po.lines ==> l.unitPrice > 0
    requires exists l :: l in po.lines && l.received > 0
    ensures var dto := Payables.GeneratedInvoice(po, receipt);
            var input := Payables.MatchInputOf(dto, Some(po), Some(po.id));
            InvoiceMatching.PerformThreeWayMatch(input) ==
            InvoiceMatching.Verdict(InvoiceMatching.LineMode, InvoiceMatching.Matched)
  {
    var dto := Payables.GeneratedInvoice(po, receipt);
    var received := Payables.ReceivedLines(po.lines);
    ReceivedLinesAreLines(po.lines);
    GeneratedLinesAreStored(po, receipt);
    assert exists l :: l in received;
    forall x | x in dto.lines
      ensures InvoiceMatching.HasProduct(x) && InvoiceMatching.Covered(x, po.lines)
    {
      var i :| 0 <= i < |dto.lines| && dto.lines[i] == x;
      assert received[i] in received;
      OwnLineIsCovered(po.lines, received[i]);
    }
    InvoiceMatching.LineMatchIff(Payables.MatchInputOf(dto, Some(po), Some(po.id)));
  }

  // ---------------------------------------------------------------------------------------
  // The chain

  /** An order before its first receipt. */
  ghost predicate Untouched(o: Order) {
    && DistinctLines(o.lines) && DistinctNamedProducts(o.lines)
    && forall l :: l in o.lines ==> l.received == 0 && l.unitPrice > 0
  }

  ghost function DocumentOf(
    order: string, vendor: string, total: int, lines: seq<OrderLine>): InvoiceMatching.OrderDocument
  {
    InvoiceMatching.OrderDocument(order, vendor, total, lines)
  }

  lemma TotalsAreNotNegative(es: seq<Entry>, i: nat)
    requires forall e :: e in es ==> e.quantity > 0
    ensures Total(es, i) >= 0
  {
    forall e | e in es
      ensures StoredOn(i)(e) >= 0
    {
      StoredQuantityIsNear(e.quantity);
    }
    SumByNonNegative(es, StoredOn(i));
  }

  /** The first receipt only raises received quantities, and one of them above zero. */
  lemma FirstReceiptLines(o: Order, es: seq<Entry>)
    requires Untouched(o) && EntriesFit(o.lines, es) && es != []
    requires forall e :: e in es ==> e.quantity > 0 && StoredQuantity(e.quantity) > 0
    ensures var lines := AfterEntries(o.lines, es);
            && DistinctNamedProducts(lines)
            && (forall l :: l in lines ==> l.unitPrice > 0 && l.received >= 0)
            && (exists l :: l in lines && l.received > 0)
  {
    var lines := AfterEntries(o.lines, es);
    forall i: nat | i < |lines|
      ensures lines[i] == o.lines[i].(received := Total(es, i))
      ensures lines[i].received >= 0 && o.lines[i] in o.lines
    {
      assert o.lines[i] in o.lines;
      TotalsAreNotNegative(es, i);
    }
    var front, e := es[..|es| - 1], es[|es| - 1];
    assert e in es && es == front + [e];
    TotalsAreNotNegative(front, e.line);
    TotalAppend(front, e, e.line);
    assert lines[e.line].received > 0;
    assert lines[e.line] in lines;
  }

  lemma AfterFirstReceipt(o: Order, request: Option<seq<Requested>>, es: seq<Entry>)
    requires Untouched(o) && ValidRequest(request) && Accepts(o, request, es)
    ensures EntriesFit(o.lines, es)
    ensures var lines := AfterReceipt(o, es).lines;
            && DistinctNamedProducts(lines)
            && (forall l :: l in lines ==> l.unitPrice > 0 && l.received >= 0)
            && (exists l :: l in lines && l.received > 0)
            && ReceivedWorth(lines) == SumBy(es, EntryValue(o.lines)) > 0
  {
    ValidEntriesAreStored(o.lines, request, es);
    FirstReceiptLines(o, es);
    NothingReceivedIsWorthNothing(o.lines);
    ReceiptRaisesWorth(o.lines, es);
    EntriesHaveValue(o.lines, es);
  }

  lemma GeneratedInvoiceIsApproved(
    ap: Payables.Books, po: InvoiceMatching.OrderDocument, receipt: string, invoice: string)
    requires DistinctNamedProducts(po.lines)
    requires forall l :: l in po.lines ==> l.unitPrice > 0
    requires exists l :: l in po.lines && l.received > 0
    requires !Payables.HasInvoiceFor(ap, po.id) && invoice !in ap.invoices
    ensures var dto := Payables.GeneratedInvoice(po, receipt);
            var after := Payables.AfterReceiptInvoice(ap, invoice, po.id, receipt, Some(po), Some(po.id));
            && after.invoices.Keys == ap.invoices.Keys + {invoice}
            && after.invoices[invoice].status == Payables.Approved
            && after.invoices[invoice].total == Stored(dto.total)
            && after.approvals == ap.approvals + [invoice]
            && InvoiceMatching.PerformThreeWayMatch(
                 Payables.MatchInputOf(dto, Some(po), Some(po.id))).mode == InvoiceMatching.LineMode
  {
    GeneratedInvoiceMatches(po, receipt);
  }

  /** An amount and what a four-decimal column makes of it. */
  ghost predicate StoredOf(stored: int, amount: int) {
    stored == Stored(amount) && 2 * Abs(stored - amount) <= COLUMN_STEP
  }

  /**
   * For an order with distinct products and positive prices, the first accepted receipt yields one
   * invoice, approved by a line-level match, whose total is the value of the cost layers created,
   * rounded to four decimals when it is stored.
   */
  lemma FirstReceiptIsInvoicedInFull(
    o: Order, request: Option<seq<Requested>>, es: seq<Entry>, stock: Inventory.Books, warehouse: string,
    ap: Payables.Books, order: string, vendor: string, total: int, receipt: string, invoice: string)
    requires Untouched(o) && ValidRequest(request) && Accepts(o, request, es) && EntriesFit(o.lines, es)
    requires !Payables.HasInvoiceFor(ap, order) && invoice !in ap.invoices
    ensures var po := DocumentOf(order, vendor, total, AfterReceipt(o, es).lines);
            var dto := Payables.GeneratedInvoice(po, receipt);
            var after := Payables.AfterReceiptInvoice(ap, invoice, order, receipt, Some(po), Some(order));
            var layers := LayersOf(o.lines, warehouse, es);
            && after.invoices.Keys == ap.invoices.Keys + {invoice}
            && after.invoices[invoice].status == Payables.Approved
            && after.approvals == ap.approvals + [invoice]
            && InvoiceMatching.PerformThreeWayMatch(
                 Payables.MatchInputOf(dto, Some(po), Some(order))).mode == InvoiceMatching.LineMode
            && StockAfter(stock, o.lines, warehouse, es).layers == stock.layers + layers
            && dto.total == SumBy(layers, LayerValue()) > 0
            && StoredOf(after.invoices[invoice].total, SumBy(layers, LayerValue()))
  {
    AfterFirstReceipt(o, request, es);
    var lines := AfterReceipt(o, es).lines;
    var po := DocumentOf(order, vendor, total, lines);
    GeneratedInvoiceIsApproved(ap, po, receipt, invoice);
    UnreceivedLinesAreWorthless(lines);
    ReceiptCreatesLayers(stock, o.lines, warehouse, es);
    LayersAreWorthEntries(o.lines, warehouse, es);
    StoredIsNear(SumBy(LayersOf(o.lines, warehouse, es), LayerValue()));
  }

  /** The ledger entry of an approved invoice: inventory against payables. */
  ghost function ApprovalEntry(invoice: string, total: int, now: string): GeneralLedger.Entry {
    GeneralLedger.Entry(now, Some(GeneralLedger.Source("AP", invoice)),
                        [GeneralLedger.Line("1300", total, 0), GeneralLedger.Line("2000", 0, total)])
  }

  /** The approval event then debits inventory and credits payables with a positive total. */
  lemma ApprovalPostsInvoiceTotal(gl: GeneralLedger.Books, invoice: string, total: Money, now: string)
    requires invoice in gl.documents && gl.documents[invoice] == GeneralLedger.ApInvoice(total)
    requires !GeneralLedger.HasSource(gl.entries, GeneralLedger.Source("AP", invoice))
    requires now in gl.periods ==> !gl.periods[now]
    ensures GeneralLedger.AfterDelivery(gl, GeneralLedger.InvoiceApproved(invoice), now).entries ==
            gl.entries + if total > 0 then [ApprovalEntry(invoice, total, now)] else []
  {
    var p := GeneralLedger.Posting(GeneralLedger.Source("AP", invoice), "1300", "2000", total);
    var d, c := GeneralLedger.Line("1300", total, 0), GeneralLedger.Line("2000", 0, total);
    StoredIsNear(total);
    assert GeneralLedger.LinesOf(p) == GeneralLedger.StoredLines(GeneralLedger.LinesOf(p)) == [d, c];
    SumByPair(d, c, GeneralLedger.Debit());
    SumByPair(d, c, GeneralLedger.Credit());
  }

  /**
   * The whole chain in stored rows: the invoice total is the layer value rounded to four decimals,
   * so within half of 0.0001 of it, and the inventory debit is that total; a layer value below half
   * of 0.0001 is stored as zero and never posted.
   */
  lemma FirstReceiptReachesLedger(
    o: Order, request: Option<seq<Requested>>, es: seq<Entry>, stock: Inventory.Books, warehouse: string,
    ap: Payables.Books, order: string, vendor: string, total: int, receipt: string, invoice: string,
    gl: GeneralLedger.Books, now: string)
    requires Untouched(o) && ValidRequest(request) && Accepts(o, request, es) && EntriesFit(o.lines, es)
    requires !Payables.HasInvoiceFor(ap, order) && invoice !in ap.invoices
    requires !GeneralLedger.HasSource(gl.entries, GeneralLedger.Source("AP", invoice))
    requires now in gl.periods ==> !gl.periods[now]
    ensures var po := DocumentOf(order, vendor, total, AfterReceipt(o, es).lines);
            var ap' := Payables.AfterReceiptInvoice(ap, invoice, order, receipt, Some(po), Some(order));
            var layers := LayersOf(o.lines, warehouse, es);
            && StockAfter(stock, o.lines, warehouse, es).layers == stock.layers + layers
            && invoice in ap'.invoices
            && var debit := ap'.invoices[invoice].total;
               var gl' := gl.(documents := gl.documents[invoice := GeneralLedger.ApInvoice(debit)]);
               && StoredOf(debit, SumBy(layers, LayerValue()))
               && (debit > 0 <==> 2 * SumBy(layers, LayerValue()) >= COLUMN_STEP)
               && GeneralLedger.AfterDelivery(gl', GeneralLedger.InvoiceApproved(invoice), now).entries ==
                  gl.entries + if debit > 0 then [ApprovalEntry(invoice, debit, now)] else []
  {
    FirstReceiptIsInvoicedInFull(o, request, es, stock, warehouse, ap, order, vendor, total, receipt, invoice);
    var value := SumBy(LayersOf(o.lines, warehouse, es), LayerValue());
    StoredIsNear(value);
    ApprovalPostsInvoiceTotal(
      gl.(documents := gl.documents[invoice := GeneralLedger.ApInvoice(Stored(value))]), invoice, Stored(value), now);
  }

  // ---------------------------------------------------------------------------------------
  // Later receipts

  /** Later receipts are worth something, yet no further invoice is generated for the order. */
  lemma LaterReceiptIsNotInvoiced(
    o: Order, request: Option<seq<Requested>>, es: seq<Entry>, ap: Payables.Books, order: string,
    receipt: string, invoice: string, po: Option<InvoiceMatching.OrderDocument>, receiptOrder: Option<string>)
    requires ValidRequest(request) && Accepts(o, request, es) && forall l :: l in o.lines ==> l.unitPrice > 0
    requires Payables.HasInvoiceFor(ap, order)
    ensures EntriesFit(o.lines, es)
    ensures ReceivedWorth(AfterReceipt(o, es).lines) > ReceivedWorth(o.lines)
    ensures Payables.AfterReceiptInvoice(ap, invoice, order, receipt, po, receiptOrder) == ap
  {
    ValidEntriesAreStored(o.lines, request, es);
    ReceiptRaisesWorth(o.lines, es);
    EntriesHaveValue(o.lines, es);
  }

  /** The requests of a run are those that the validator lets through. */
  ghost predicate ValidRequests(ops: seq<PurchaseRuns.Op>) {
    forall i :: 0 <= i < |ops| && ops[i].Receive? ==> ValidRequest(ops[i].request)
  }

  /** Along a run, received worth grows exactly with the receipt rows. */
  lemma {:induction false} WorthGrowsWithReceipts(ops: seq<PurchaseRuns.Op>, trace: seq<Order>, i: nat, n: nat)
    requires PurchaseRuns.IsRun(ops, trace) && ValidRequests(ops) && i <= n < |trace|
    requires forall l :: l in trace[0].lines ==> l.unitPrice > 0
    ensures |trace[i].receiptLines| <= |trace[n].receiptLines|
    ensures ReceivedWorth(trace[i].lines) <= ReceivedWorth(trace[n].lines)
    ensures ReceivedWorth(trace[i].lines) == ReceivedWorth(trace[n].lines) <==>
            |trace[i].receiptLines| == |trace[n].receiptLines|
    decreases n
  {
    if i < n {
      WorthGrowsWithReceipts(ops, trace, i, n - 1);
      PurchaseRuns.RunReconciles(ops, trace, n - 1);
      assert PurchaseRuns.Step(trace[n - 1], ops[n - 1], trace[n]);
      PricesArePositive(trace[0], trace[n - 1]);
      StepAddsWorth(trace[n - 1], ops[n - 1], trace[n]);
    }
  }

  lemma ReceiptKeepsNonNegative(o: Order, request: Option<seq<Requested>>, es: seq<Entry>)
    requires Accepts(o, request, es) && forall l :: l in o.lines ==> l.received >= 0
    ensures EntriesFit(o.lines, es)
    ensures forall l :: l in AfterReceipt(o, es).lines ==> l.received >= 0
  {
    EntriesArePositive(o.lines, request, es);
    forall i: nat | i < |o.lines|
      ensures o.lines[i].received + Total(es, i) >= 0
    {
      assert o.lines[i] in o.lines;
      TotalsAreNotNegative(es, i);
    }
  }

  lemma {:induction false} ReceivedIsNonNegative(ops: seq<PurchaseRuns.Op>, trace: seq<Order>, n: nat)
    requires PurchaseRuns.IsRun(ops, trace) && n < |trace|
    ensures forall l :: l in trace[n].lines ==> l.received >= 0
    decreases n
  {
    if n > 0 {
      ReceivedIsNonNegative(ops, trace, n - 1);
      var o, after := trace[n - 1], trace[n];
      assert PurchaseRuns.Step(o, ops[n - 1], after);
      if ops[n - 1].Receive? && after != o {
        var es := PurchaseRuns.ReceiptOfStep(o, ops[n - 1].request, after);
        ReceiptKeepsNonNegative(o, ops[n - 1].request, es);
      }
    }
  }

  /**
   * So the invoice generated from the order as it is at point `i` is for everything received by
   * point `n` exactly when no receipt was accepted in between, and short of it otherwise.
   */
  lemma InvoiceCoversOrderIff(
    ops: seq<PurchaseRuns.Op>, trace: seq<Order>, i: nat, n: nat,
    order: string, vendor: string, total: int, receipt: string)
    requires PurchaseRuns.IsRun(ops, trace) && ValidRequests(ops) && i <= n < |trace|
    requires forall l :: l in trace[0].lines ==> l.unitPrice > 0
    ensures var invoice := Payables.GeneratedInvoice(DocumentOf(order, vendor, total, trace[i].lines), receipt);
            && invoice.total <= ReceivedWorth(trace[n].lines)
            && (invoice.total == ReceivedWorth(trace[n].lines) <==>
                |trace[i].receiptLines| == |trace[n].receiptLines|)
  {
    ReceivedIsNonNegative(ops, trace, i);
    UnreceivedLinesAreWorthless(trace[i].lines);
    WorthGrowsWithReceipts(ops, trace, i, n);
  }

  lemma PricesArePositive(first: Order, o: Order)
    requires PurchaseRuns.Reconciled(first, o) && forall l :: l in first.lines ==> l.unitPrice > 0
    ensures forall l :: l in o.lines ==> l.unitPrice > 0
  {
    forall i | 0 <= i < |o.lines|
      ensures o.lines[i].unitPrice > 0
    {
      assert first.lines[i] in first.lines;
    }
  }

  /** A step adds receipt rows exactly when it adds worth. */
  lemma StepAddsWorth(o: Order, op: PurchaseRuns.Op, after: Order)
    requires PurchaseRuns.Step(o, op, after) && forall l :: l in o.lines ==> l.unitPrice > 0
    requires op.Receive? ==> ValidRequest(op.request)
    ensures |o.receiptLines| <= |after.receiptLines| && ReceivedWorth(o.lines) <= ReceivedWorth(after.lines)
    ensures ReceivedWorth(o.lines) == ReceivedWorth(after.lines) <==> |o.receiptLines| == |after.receiptLines|
  {
    if op.Receive? && after != o {
      var es := PurchaseRuns.ReceiptOfStep(o, op.request, after);
      ValidEntriesAreStored(o.lines, op.request, es);
      ReceiptRaisesWorth(o.lines, es);
      EntriesHaveValue(o.lines, es);
    }
  }

  // ---------------------------------------------------------------------------------------
  // An order received in two halves

  /** Receiving half of the only line's remaining quantity, when both are whole steps. */
  lemma HalfIsAccepted(o: Order, l: OrderLine, half: Quantity)
    requires o.lines == [l] && Receivable(o) && SMALLEST_REQUEST <= half <= Remaining(l)
    ensures var request, es := Some([Requested(l.id, half)]), [Entry(0, half)];
            && Accepts(o, request, es)
            && AfterReceipt(o, es).lines == [l.(received := l.received + half)]
  {
    var rs, es := [Requested(l.id, half)], [Entry(0, half)];
    assert IsLine(o.lines, l.id, 0);
    assert rs[..0] == [] && Positive(rs) == rs;
    StoredQuantityIsNear(half);
    TotalAppend([], es[0], 0);
    assert [] + [es[0]] == es;
  }

  lemma WorthOfOneLine(l: OrderLine)
    ensures ReceivedWorth([l]) == Worth(l.received, l.unitPrice)
  {
    SumByAppend([], l, Payables.ReceivedValue());
    assert [] + [l] == [l];
  }

  /** The invoice for an order of one line, when no invoice names the order yet. */
  lemma OneLineInvoice(po: InvoiceMatching.OrderDocument, l: OrderLine, receipt: string, invoice: string)
    requires po.lines == [l] && l.product != "" && l.unitPrice > 0 && l.received > 0
    ensures var empty := Payables.Books(map[], [], []);
            var after := Payables.AfterReceiptInvoice(empty, invoice, po.id, receipt, Some(po), Some(po.id));
            && after.invoices.Keys == {invoice}
            && after.invoices[invoice].purchaseOrder == Some(po.id)
            && after.invoices[invoice].total == Stored(Worth(l.received, l.unitPrice))
  {
    assert l in po.lines;
    GeneratedInvoiceIsApproved(Payables.Books(map[], [], []), po, receipt, invoice);
    UnreceivedLinesAreWorthless(po.lines);
    WorthOfOneLine(l);
  }

  /** Ten units at 1.0000, received five and five: the only invoice is for half of what arrived. */
  lemma SecondHalfIsNeverInvoiced(
    order: string, vendor: string, id: string, product: string, receipts: seq<string>, invoices: seq<string>)
    requires product != "" && |receipts| == |invoices| == 2
    ensures var o0 := Order(Approved, [OrderLine(id, product, 10_000_000, 10_000, 0)], []);
            var request, es := Some([Requested(id, 5_000_000)]), [Entry(0, 5_000_000)];
            EntriesFit(o0.lines, es) &&
            var o1 := AfterReceipt(o0, es);
            EntriesFit(o1.lines, es) &&
            var o2 := AfterReceipt(o1, es);
            var po1, po2 := DocumentOf(order, vendor, 100_000_000_000, o1.lines),
                            DocumentOf(order, vendor, 100_000_000_000, o2.lines);
            var ap1 := Payables.AfterReceiptInvoice(
                         Payables.Books(map[], [], []), invoices[0], order, receipts[0], Some(po1), Some(order));
            var ap2 := Payables.AfterReceiptInvoice(ap1, invoices[1], order, receipts[1], Some(po2), Some(order));
            && PurchaseRuns.Step(o0, PurchaseRuns.Receive(request), o1)
            && PurchaseRuns.Step(o1, PurchaseRuns.Receive(request), o2)
            && ap2.invoices.Keys == {invoices[0]}
            && 2 * ap2.invoices[invoices[0]].total == ReceivedWorth(o2.lines) == 100_000_000_000
  {
    var l0 := OrderLine(id, product, 10_000_000, 10_000, 0);
    var l1, l2 := l0.(received := 5_000_000), l0.(received := 10_000_000);
    var o0, es := Order(Approved, [l0], []), [Entry(0, 5_000_000)];
    HalfIsAccepted(o0, l0, 5_000_000);
    var o1 := AfterReceipt(o0, es);
    HalfIsAccepted(o1, l1, 5_000_000);
    var po1 := DocumentOf(order, vendor, 100_000_000_000, [l1]);
    OneLineInvoice(po1, l1, receipts[0], invoices[0]);
    WorthOfOneLine(l2);
    assert Worth(5_000_000, 10_000) == 50_000_000_000 && Worth(10_000_000, 10_000) == 100_000_000_000;
    var ap1 := Payables.AfterReceiptInvoice(
      Payables.Books(map[], [], []), invoices[0], order, receipts[0], Some(po1), Some(order));
    assert invoices[0] in ap1.invoices && ap1.invoices[invoices[0]].purchaseOrder == Some(order);
  }
}
