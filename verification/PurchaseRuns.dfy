/** What every sequence of approvals, cancellations and receipts keeps on one purchase order. */
module PurchaseRuns {
  import opened Prelude
  import opened Purchasing
  import Inventory
  import InventoryRuns

  // ---------------------------------------------------------------------------------------
  // One receipt

  ghost function RowsOn(id: string): ReceiptLine -> int {
    (r: ReceiptLine) => if r.lineId == id then r.quantity else 0
  }

  /** What a requested line adds to the row of its order line. */
  ghost function RequestedOn(id: string): Requested -> int {
    (r: Requested) => if r.lineId == id && r.quantity > 0 then StoredQuantity(r.quantity) else 0
  }

  /** No line id is requested twice. */
  ghost predicate DistinctRequests(rs: seq<Requested>) {
    forall i, j :: 0 <= i < j < |rs| ==> rs[i].lineId != rs[j].lineId
  }

  ghost predicate DistinctRequest(request: Option<seq<Requested>>) {
    request.Some? ==> DistinctRequests(request.value)
  }

  lemma {:induction false} RowsMatchEntries(lines: seq<OrderLine>, es: seq<Entry>, i: nat)
    requires DistinctLines(lines) && EntriesFit(lines, es) && i < |lines|
    ensures SumBy(RowsOf(lines, es), RowsOn(lines[i].id)) == Total(es, i)
  {
    if |es| > 0 {
      var front, e := es[..|es| - 1], es[|es| - 1];
      RowsMatchEntries(lines, front, i);
      var rows := RowsOf(lines, es);
      assert rows[..|rows| - 1] == RowsOf(lines, front);
      assert rows[|rows| - 1] == ReceiptLine(lines[e.line].id, lines[e.line].product, StoredQuantity(e.quantity));
    }
  }

  /** The entries of a line add up to what was requested for its id, copies included. */
  lemma {:induction false} EntriesMatchRequest(lines: seq<OrderLine>, rs: seq<Requested>, es: seq<Entry>, i: nat)
    requires DistinctLines(lines) && ResolveAll(lines, Positive(rs), es) && i < |lines|
    ensures Total(es, i) == SumBy(rs, RequestedOn(lines[i].id))
  {
    if |rs| > 0 {
      var front, r := rs[..|rs| - 1], rs[|rs| - 1];
      if r.quantity > 0 {
        assert Positive(rs)[..|es| - 1] == Positive(front);
        assert Resolves(lines, Positive(rs)[|es| - 1], es[|es| - 1]);
        EntriesMatchRequest(lines, front, es[..|es| - 1], i);
      } else {
        EntriesMatchRequest(lines, front, es, i);
      }
    }
  }

  lemma {:induction false} DistinctRequestsBound(rs: seq<Requested>, id: string, bound: int)
    requires DistinctRequests(rs) && bound >= 0
    requires forall r :: r in rs && r.lineId == id ==> StoredQuantity(r.quantity) <= bound
    ensures SumBy(rs, RequestedOn(id)) <= bound
    ensures (forall r :: r in rs ==> r.lineId != id) ==> SumBy(rs, RequestedOn(id)) == 0
  {
    if |rs| > 0 {
      var front := rs[..|rs| - 1];
      assert forall r :: r in front ==> r in rs;
      DistinctRequestsBound(front, id, bound);
      assert rs[|rs| - 1] in rs;
    }
  }

  /**
   * Exactly when a receipt leaves no line over-received. The check compares every copy with the
   * quantity outstanding before the receipt, so it is the total per line that decides.
   */
  lemma NoOverReceiptIff(o: Order, rs: seq<Requested>, es: seq<Entry>, i: nat)
    requires DistinctLines(o.lines) && rs != [] && Accepts(o, Some(rs), es) && i < |o.lines|
    ensures var l := AfterEntries(o.lines, es)[i];
            l.received <= l.quantity + SLACK
            <==> SumBy(rs, RequestedOn(l.id)) <= Remaining(o.lines[i]) + SLACK
  {
    EntriesMatchRequest(o.lines, rs, es, i);
  }

  /** Two copies of one request for the only line of an order. */
  lemma TwoCopies(l: OrderLine, q: Quantity)
    requires 0 < q <= Remaining(l)
    ensures var rs, es := [Requested(l.id, q), Requested(l.id, q)], [Entry(0, q), Entry(0, q)];
            && Accepts(Order(Approved, [l], []), Some(rs), es)
            && AfterEntries([l], es)[0].received == l.received + 2 * q
            && LastQuantity(es, 0) == q
  {
    var rs, es := [Requested(l.id, q), Requested(l.id, q)], [Entry(0, q), Entry(0, q)];
    assert IsLine([l], l.id, 0);
    assert rs[..1] == [Requested(l.id, q)];
    assert rs[..1][..0] == [];
    assert Positive(rs[..1]) == rs[..1];
    assert Positive(rs) == rs;
    StoredQuantityIsNear(q);
    SumByPair(es[0], es[1], StoredOn(0));
  }

  /** A request that repeats a line id can be accepted for more than was ordered. */
  lemma RepeatedLineOverReceives(id: string, product: string, warehouse: string)
    ensures var o := Order(Approved, [OrderLine(id, product, 10_000_000, 1, 0)], []);
            var rs := [Requested(id, 8_000_000), Requested(id, 8_000_000)];
            var es := [Entry(0, 8_000_000), Entry(0, 8_000_000)];
            Accepts(o, Some(rs), es) && AfterReceipt(o, es).lines[0].received == 16_000_000
  {
    TwoCopies(OrderLine(id, product, 10_000_000, 1, 0), 8_000_000);
  }

  /** The last entry of a line is part of what the line receives, and all of it when it is alone. */
  lemma {:induction false} LastIsWholeWhenAlone(es: seq<Entry>, i: nat)
    requires forall e :: e in es ==> e.quantity > 0
    ensures 0 <= LastQuantity(es, i) && 0 <= StoredQuantity(LastQuantity(es, i)) <= Total(es, i)
    ensures DistinctEntries(es) ==> StoredQuantity(LastQuantity(es, i)) == Total(es, i)
    ensures (forall e :: e in es ==> e.line != i) ==> LastQuantity(es, i) == 0 && Total(es, i) == 0
  {
    if |es| > 0 {
      var front, e := es[..|es| - 1], es[|es| - 1];
      assert e in es && es == front + [e];
      LastIsWholeWhenAlone(front, i);
      TotalAppend(front, e, i);
      StoredQuantityIsNear(e.quantity);
    }
  }

  /** A quantity that satisfies the status test still does so once it is stored. */
  lemma StoredStillReaches(q: int, remaining: Quantity)
    requires q >= 0 && q >= remaining - SLACK
    ensures StoredQuantity(q) >= remaining
  {
    StoredQuantityIsNear(q);
    if remaining > 0 {
      StoredQuantityReachesIff(q, remaining);
    }
  }

  lemma {:induction false} PositiveKeepsDistinct(rs: seq<Requested>)
    requires DistinctRequests(rs)
    ensures DistinctRequests(Positive(rs))
  {
    if |rs| > 0 {
      var front, r := rs[..|rs| - 1], rs[|rs| - 1];
      PositiveKeepsDistinct(front);
      var kept := Positive(front);
      forall i | 0 <= i < |kept|
        ensures kept[i].lineId != r.lineId
      {
        assert kept[i] in front;
        var k :| 0 <= k < |front| && front[k] == kept[i];
        assert rs[k].lineId != rs[|rs| - 1].lineId;
      }
    }
  }

  ghost predicate DistinctEntries(es: seq<Entry>) {
    forall a, b :: 0 <= a < b < |es| ==> es[a].line != es[b].line
  }

  lemma DistinctEntriesExtend(es: seq<Entry>, e: Entry)
    requires DistinctEntries(es) && forall x :: x in es ==> x.line != e.line
    ensures DistinctEntries(es + [e])
  {
    assert forall a :: 0 <= a < |es| ==> es[a] in es;
  }

  lemma {:induction false} OutstandingIsDistinct(lines: seq<OrderLine>, n: nat)
    requires n <= |lines|
    ensures DistinctEntries(Outstanding(lines, n))
  {
    if n > 0 {
      OutstandingIsDistinct(lines, n - 1);
      OutstandingEntries(lines, n - 1);
      DistinctEntriesExtend(Outstanding(lines, n - 1), Entry(n - 1, Remaining(lines[n - 1])));
    }
  }

  lemma EntriesOfDistinctRequest(o: Order, request: Option<seq<Requested>>, es: seq<Entry>)
    requires DistinctLines(o.lines) && DistinctRequest(request) && Accepts(o, request, es)
    ensures DistinctEntries(es)
  {
    if request.Some? && request.value != [] {
      var rs := Positive(request.value);
      PositiveKeepsDistinct(request.value);
      forall a, b | 0 <= a < b < |es|
        ensures es[a].line != es[b].line
      {
        assert Resolves(o.lines, rs[a], es[a]) && Resolves(o.lines, rs[b], es[b]);
      }
    } else {
      OutstandingIsDistinct(o.lines, |o.lines|);
    }
  }

  ghost predicate AllReceived(lines: seq<OrderLine>) {
    forall i :: 0 <= i < |lines| ==> FullyReceived(lines[i])
  }

  /** Nothing is requested with more than four decimals. */
  ghost predicate FourDecimals(request: Option<seq<Requested>>) {
    request.Some? ==> forall r :: r in request.value ==> r.quantity % QUANTITY_STEP == 0
  }

  lemma FourDecimalEntries(o: Order, request: Option<seq<Requested>>, es: seq<Entry>)
    requires Accepts(o, request, es) && FourDecimals(request)
    ensures forall e :: e in es ==> e.quantity % QUANTITY_STEP == 0
  {
    if request.Some? && request.value != [] {
      forall i | 0 <= i < |es|
        ensures es[i].quantity % QUANTITY_STEP == 0
      {
        assert Resolves(o.lines, Positive(request.value)[i], es[i]);
        assert Positive(request.value)[i] in Positive(request.value);
      }
    } else {
      OutstandingEntries(o.lines, |o.lines|);
    }
  }

  lemma {:induction false} LastIsAnEntry(es: seq<Entry>, i: nat)
    ensures LastQuantity(es, i) == 0 || exists e :: e in es && e.quantity == LastQuantity(es, i)
  {
    if |es| > 0 {
      assert es[|es| - 1] in es;
      LastIsAnEntry(es[..|es| - 1], i);
    }
  }

  /**
   * RECEIVED is only written when every line is fully received; with distinct line ids and no more
   * than four decimals, exactly then.
   */
  lemma StatusIsSound(o: Order, request: Option<seq<Requested>>, es: seq<Entry>)
    requires DistinctLines(o.lines) && Accepts(o, request, es)
    ensures EntriesFit(o.lines, es)
    ensures AfterReceipt(o, es).status == Received ==> AllReceived(AfterReceipt(o, es).lines)
    ensures DistinctRequest(request) && FourDecimals(request) ==>
              (AfterReceipt(o, es).status == Received <==> AllReceived(AfterReceipt(o, es).lines))
  {
    EntriesArePositive(o.lines, request, es);
    var after := AfterReceipt(o, es).lines;
    forall i: nat | i < |o.lines|
      ensures LastQuantity(es, i) >= Remaining(o.lines[i]) - SLACK ==> FullyReceived(after[i])
      ensures DistinctRequest(request) && FourDecimals(request) && FullyReceived(after[i]) ==>
                LastQuantity(es, i) >= Remaining(o.lines[i]) - SLACK
    {
      LastIsWholeWhenAlone(es, i);
      if LastQuantity(es, i) >= Remaining(o.lines[i]) - SLACK {
        StoredStillReaches(LastQuantity(es, i), Remaining(o.lines[i]));
      }
      if DistinctRequest(request) && FourDecimals(request) {
        EntriesOfDistinctRequest(o, request, es);
        FourDecimalEntries(o, request, es);
        LastIsAnEntry(es, i);
        StoredQuantityIsNear(LastQuantity(es, i));
      }
    }
  }

  /** The last positive quantity that a request names for a line. */
  function LastPositive(rs: seq<Requested>, id: string): int {
    if |rs| == 0 then 0
    else if rs[|rs| - 1].lineId == id && rs[|rs| - 1].quantity > 0 then rs[|rs| - 1].quantity
    else LastPositive(rs[..|rs| - 1], id)
  }

  lemma {:induction false} LastEntryIsLastPositive(lines: seq<OrderLine>, rs: seq<Requested>, es: seq<Entry>, i: nat)
    requires DistinctLines(lines) && ResolveAll(lines, Positive(rs), es) && i < |lines|
    ensures LastQuantity(es, i) == LastPositive(rs, lines[i].id)
  {
    if |rs| > 0 {
      var front, r := rs[..|rs| - 1], rs[|rs| - 1];
      if r.quantity > 0 {
        assert Positive(rs)[..|es| - 1] == Positive(front);
        assert Resolves(lines, Positive(rs)[|es| - 1], es[|es| - 1]);
        LastEntryIsLastPositive(lines, front, es[..|es| - 1], i);
      } else {
        LastEntryIsLastPositive(lines, front, es, i);
      }
    }
  }

  /** What the rows get of the request, copies added up, covers all that is outstanding. */
  ghost predicate TotalsCover(lines: seq<OrderLine>, rs: seq<Requested>) {
    forall i :: 0 <= i < |lines| ==> SumBy(rs, RequestedOn(lines[i].id)) >= Remaining(lines[i]) - SLACK
  }

  /** The last copy for each line, as requested, alone covers all that is outstanding. */
  ghost predicate LastCopiesCover(lines: seq<OrderLine>, rs: seq<Requested>) {
    forall i :: 0 <= i < |lines| ==> LastPositive(rs, lines[i].id) >= Remaining(lines[i]) - SLACK
  }

  /**
   * A receipt completes the order exactly when the stored totals cover it, and writes RECEIVED
   * exactly when the last copies do as requested; so the status tells the truth exactly when the one
   * implies the other. Copies and finer quantities than the columns hold are the two ways to fail.
   */
  lemma StatusAgreesIff(o: Order, rs: seq<Requested>, es: seq<Entry>)
    requires DistinctLines(o.lines) && rs != [] && Accepts(o, Some(rs), es)
    ensures EntriesFit(o.lines, es)
    ensures AllReceived(AfterReceipt(o, es).lines) <==> TotalsCover(o.lines, rs)
    ensures AfterReceipt(o, es).status == Received <==> LastCopiesCover(o.lines, rs)
    ensures (AfterReceipt(o, es).status == Received <==> AllReceived(AfterReceipt(o, es).lines))
            <==> (TotalsCover(o.lines, rs) ==> LastCopiesCover(o.lines, rs))
  {
    EntriesArePositive(o.lines, Some(rs), es);
    var after := AfterReceipt(o, es).lines;
    forall i: nat | i < |o.lines|
      ensures FullyReceived(after[i]) <==> SumBy(rs, RequestedOn(o.lines[i].id)) >= Remaining(o.lines[i]) - SLACK
      ensures LastQuantity(es, i) == LastPositive(rs, o.lines[i].id)
    {
      EntriesMatchRequest(o.lines, rs, es, i);
      LastEntryIsLastPositive(o.lines, rs, es, i);
    }
    StatusIsSound(o, Some(rs), es);
  }

  /** Copies of one line make the converse fail: fully received, yet left PARTIALLY_RECEIVED. */
  lemma RepeatedLineLooksPartial(id: string, product: string)
    ensures var o := Order(Approved, [OrderLine(id, product, 10_000_000, 1, 0)], []);
            var es := [Entry(0, 5_000_000), Entry(0, 5_000_000)];
            && Accepts(o, Some([Requested(id, 5_000_000), Requested(id, 5_000_000)]), es)
            && AllReceived(AfterReceipt(o, es).lines)
            && AfterReceipt(o, es).status == PartiallyReceived
  {
    TwoCopies(OrderLine(id, product, 10_000_000, 1, 0), 5_000_000);
    var o := Order(Approved, [OrderLine(id, product, 10_000_000, 1, 0)], []);
    var es := [Entry(0, 5_000_000), Entry(0, 5_000_000)];
    assert o.lines[0].received + LastQuantity(es, 0) < o.lines[0].quantity - SLACK;
  }

  /**
   * So does a quantity that only its row completes: 0.99996 of 1.0000 becomes 1.0000, and the order
   * is fully received and yet left PARTIALLY_RECEIVED.
   */
  lemma ShortReceiptLooksPartial(id: string, product: string)
    ensures var o := Order(Approved, [OrderLine(id, product, 1_000_000, 1, 0)], []);
            var es := [Entry(0, 999_960)];
            && Accepts(o, Some([Requested(id, 999_960)]), es)
            && AfterReceipt(o, es).lines[0].received == 1_000_000 && AllReceived(AfterReceipt(o, es).lines)
            && AfterReceipt(o, es).status == PartiallyReceived
  {
    var o := Order(Approved, [OrderLine(id, product, 1_000_000, 1, 0)], []);
    var rs, es := [Requested(id, 999_960)], [Entry(0, 999_960)];
    assert IsLine(o.lines, id, 0);
    assert rs[..0] == [] && es[..0] == [];
    assert Positive(rs) == rs;
    TotalAppend([], es[0], 0);
    assert [] + [es[0]] == es;
    assert o.lines[0].received + LastQuantity(es, 0) < o.lines[0].quantity - SLACK;
  }

  /** A receipt without lines always completes the order. */
  lemma ReceiptWithoutLinesCompletes(o: Order, request: Option<seq<Requested>>, es: seq<Entry>)
    requires request.None? || request.value == []
    requires Accepts(o, request, es)
    ensures EntriesFit(o.lines, es)
    ensures AfterReceipt(o, es).status == Received && AllReceived(AfterReceipt(o, es).lines)
  {
    OutstandingEntries(o.lines, |o.lines|);
  }

  /** Once every line is fully received no receipt is accepted, whatever the status says. */
  lemma CompleteOrderAcceptsNothing(o: Order, request: Option<seq<Requested>>, es: seq<Entry>)
    requires DistinctLines(o.lines) && AllReceived(o.lines)
    requires ValidRequest(request)
    ensures !Accepts(o, request, es)
  {
    if request.Some? && request.value != [] {
      var r := request.value[0];
      assert r in request.value;
      forall k | IsLine(o.lines, r.lineId, k)
        ensures r.quantity > Remaining(o.lines[k]) + SLACK
      {
        assert FullyReceived(o.lines[k]);
      }
    } else {
      NothingOutstandingWhenReceived(o.lines, |o.lines|);
    }
  }

  lemma {:induction false} NothingOutstandingWhenReceived(lines: seq<OrderLine>, n: nat)
    requires AllReceived(lines) && n <= |lines|
    ensures Outstanding(lines, n) == []
  {
    if n > 0 {
      NothingOutstandingWhenReceived(lines, n - 1);
      assert FullyReceived(lines[n - 1]);
    }
  }

  // ---------------------------------------------------------------------------------------
  // Runs

  datatype Op = Approve | Cancel | Receive(request: Option<seq<Requested>>)

  ghost predicate Step(o: Order, op: Op, after: Order) {
    match op
    case Approve => after == o.(status := Approved)
    case Cancel => after == if o.status in {Draft, Submitted, Approved} then o.(status := Cancelled) else o
    case Receive(request) =>
      if exists es :: Accepts(o, request, es) then
        exists es :: Accepts(o, request, es) && EntriesFit(o.lines, es) && after == AfterReceipt(o, es)
      else after == o
  }

  /** The entries behind a receipt that changed the order. */
  lemma ReceiptOfStep(o: Order, request: Option<seq<Requested>>, after: Order) returns (es: seq<Entry>)
    requires Step(o, Receive(request), after) && after != o
    ensures Accepts(o, request, es) && EntriesFit(o.lines, es) && after == AfterReceipt(o, es)
  {
    es :| Accepts(o, request, es) && EntriesFit(o.lines, es) && after == AfterReceipt(o, es);
  }

  /** `trace` starts from a new order, a draft when the reorder service made it, and follows `ops`. */
  ghost predicate IsRun(ops: seq<Op>, trace: seq<Order>) {
    && |trace| == |ops| + 1
    && trace[0].status in {Draft, Submitted} && trace[0].receiptLines == []
    && DistinctLines(trace[0].lines)
    && (forall i :: 0 <= i < |trace[0].lines| ==> trace[0].lines[i].received == 0)
    && forall i, j :: 0 <= i && j == i + 1 && j <= |ops| ==> Step(trace[i], ops[i], trace[j])
  }

  /** Only the received quantities of the lines ever change, and they add up to the receipt rows. */
  ghost predicate Reconciled(first: Order, o: Order) {
    && |o.lines| == |first.lines|
    && forall i :: 0 <= i < |o.lines| ==>
         && o.lines[i] == first.lines[i].(received := o.lines[i].received)
         && o.lines[i].received == SumBy(o.receiptLines, RowsOn(o.lines[i].id))
  }

  lemma ReceiptKeepsReconciled(first: Order, o: Order, request: Option<seq<Requested>>, es: seq<Entry>)
    requires DistinctLines(first.lines) && Reconciled(first, o)
    requires Accepts(o, request, es) && EntriesFit(o.lines, es)
    ensures DistinctLines(o.lines) && Reconciled(first, AfterReceipt(o, es))
  {
    var after := AfterReceipt(o, es);
    assert DistinctLines(o.lines) by {
      assert forall i :: 0 <= i < |o.lines| ==> o.lines[i].id == first.lines[i].id;
    }
    forall i: nat | i < |o.lines|
      ensures after.lines[i].received == SumBy(after.receiptLines, RowsOn(after.lines[i].id))
    {
      RowsMatchEntries(o.lines, es, i);
      SumByConcat(o.receiptLines, RowsOf(o.lines, es), RowsOn(o.lines[i].id));
    }
  }

  /** After every run, a line's running total is the sum of its receipt rows. */
  lemma {:induction false} RunReconciles(ops: seq<Op>, trace: seq<Order>, n: nat)
    requires IsRun(ops, trace) && n < |trace|
    ensures Reconciled(trace[0], trace[n]) && DistinctLines(trace[n].lines)
    decreases n
  {
    if n > 0 {
      RunReconciles(ops, trace, n - 1);
      var o := trace[n - 1];
      assert Step(o, ops[n - 1], trace[n]);
      if ops[n - 1].Receive? && trace[n] != o {
        var es := ReceiptOfStep(o, ops[n - 1].request, trace[n]);
        ReceiptKeepsReconciled(trace[0], o, ops[n - 1].request, es);
      }
    }
  }

  ghost predicate WithinOrdered(o: Order) {
    forall i :: 0 <= i < |o.lines| ==> o.lines[i].received <= o.lines[i].quantity
  }

  /** What a request without copies books on a line fits its remaining quantity. */
  lemma DistinctEntriesFitLine(o: Order, request: Option<seq<Requested>>, es: seq<Entry>, i: nat)
    requires DistinctLines(o.lines) && DistinctRequest(request) && Accepts(o, request, es) && i < |o.lines|
    requires Remaining(o.lines[i]) >= 0
    ensures Total(es, i) <= Remaining(o.lines[i])
  {
    if request.Some? && request.value != [] {
      var rs, l := request.value, o.lines[i];
      EntriesMatchRequest(o.lines, rs, es, i);
      forall r | r in rs && r.lineId == l.id
        ensures StoredQuantity(r.quantity) <= Remaining(l)
      {
        assert Acceptable(o.lines, r);
        SlackIsRoundedAway(r.quantity, Remaining(l));
      }
      DistinctRequestsBound(rs, l.id, Remaining(l));
    } else {
      OutstandingEntries(o.lines, |o.lines|);
    }
  }

  lemma SlackIsRoundedAway(q: int, remaining: Quantity)
    requires remaining >= 0 && q <= remaining + SLACK
    ensures StoredQuantity(q) <= remaining
  {
  }

  lemma DistinctReceiptStaysWithinOrdered(o: Order, request: Option<seq<Requested>>, es: seq<Entry>)
    requires DistinctLines(o.lines) && WithinOrdered(o) && DistinctRequest(request)
    requires Accepts(o, request, es) && EntriesFit(o.lines, es)
    ensures WithinOrdered(AfterReceipt(o, es))
  {
    forall i: nat | i < |o.lines|
      ensures o.lines[i].received + Total(es, i) <= o.lines[i].quantity
    {
      DistinctEntriesFitLine(o, request, es, i);
    }
  }

  /** When no request repeats a line id, no run receives more than was ordered: rounding eats the slack. */
  lemma {:induction false} RunStaysWithinOrdered(ops: seq<Op>, trace: seq<Order>, n: nat)
    requires IsRun(ops, trace) && n < |trace|
    requires forall i :: 0 <= i < |trace[0].lines| ==> trace[0].lines[i].quantity >= 0
    requires forall i :: 0 <= i < |ops| && ops[i].Receive? ==> DistinctRequest(ops[i].request)
    ensures WithinOrdered(trace[n])
    decreases n
  {
    if n > 0 {
      RunStaysWithinOrdered(ops, trace, n - 1);
      RunReconciles(ops, trace, n - 1);
      var o := trace[n - 1];
      assert Step(o, ops[n - 1], trace[n]);
      if ops[n - 1].Receive? && trace[n] != o {
        var es := ReceiptOfStep(o, ops[n - 1].request, trace[n]);
        DistinctReceiptStaysWithinOrdered(o, ops[n - 1].request, es);
      }
    }
  }

  /** One received line keeps the conservation laws, unless it brings a half step to a negative level. */
  lemma EntryConservesStock(b: Inventory.Books, key: Inventory.Key, q: int, unitCost: int, k: Inventory.Key)
    requires q > 0 && InventoryRuns.Conserved(b, k)
    requires Inventory.LevelOf(b.levels, k) >= 0 || q % QUANTITY_STEP == 0
    ensures var after := Inventory.Receive(b, key, q, unitCost);
            && InventoryRuns.Conserved(after, k)
            && (Inventory.LevelOf(b.levels, k) >= 0 ==> Inventory.LevelOf(after.levels, k) >= 0)
  {
    var op := InventoryRuns.ReceiveOp(key, q, unitCost);
    if key == k {
      assert InventoryRuns.KeepsLaws(b, op) by {
        if q % QUANTITY_STEP == 0 {
          InventoryRuns.FourDecimalsKeepLaws(b, op);
        } else {
          InventoryRuns.ReceiptsKeepLaws(b, op);
        }
      }
      InventoryRuns.StepConservesIff(b, op);
    } else {
      InventoryRuns.OtherKeysConserved(b, op, k);
    }
    if Inventory.LevelOf(b.levels, k) >= 0 {
      InventoryRuns.ReceiptsKeepLevels(b, key, q, unitCost, k);
    }
  }

  /** So the stock side of a receipt keeps them. */
  lemma {:induction false} ReceiptConservesStock(
    b: Inventory.Books, lines: seq<OrderLine>, warehouse: string, es: seq<Entry>, k: Inventory.Key)
    requires EntriesFit(lines, es) && (forall e :: e in es ==> e.quantity > 0) && InventoryRuns.Conserved(b, k)
    requires Inventory.LevelOf(b.levels, k) >= 0 || forall e :: e in es ==> e.quantity % QUANTITY_STEP == 0
    ensures var after := StockAfter(b, lines, warehouse, es);
            && InventoryRuns.Conserved(after, k)
            && (Inventory.LevelOf(b.levels, k) >= 0 ==> Inventory.LevelOf(after.levels, k) >= 0)
  {
    if |es| > 0 {
      var front, e := es[..|es| - 1], es[|es| - 1];
      assert e in es;
      ReceiptConservesStock(b, lines, warehouse, front, k);
      EntryConservesStock(StockAfter(b, lines, warehouse, front), Inventory.Key(lines[e.line].product, warehouse),
                          e.quantity, lines[e.line].unitPrice, k);
    }
  }

  // ---------------------------------------------------------------------------------------
  // Cancellation

  ghost predicate GoodsArrived(o: Order) {
    o.receiptLines != []
  }

  /** The status records that goods have arrived, so cancellation will refuse. */
  ghost predicate StatusShowsGoods(o: Order) {
    GoodsArrived(o) ==> o.status == Received || o.status == PartiallyReceived
  }

  /** Only an approval can lose that record, and it does exactly when goods have arrived. */
  lemma StatusShowsGoodsIff(o: Order, op: Op, after: Order)
    requires StatusShowsGoods(o) && Step(o, op, after)
    ensures StatusShowsGoods(after) <==> !(op.Approve? && GoodsArrived(o))
  {
    if op.Receive? && after != o {
      var es := ReceiptOfStep(o, op.request, after);
    }
  }

  /** Goods only ever arrive on an approved order. */
  lemma {:induction false} GoodsNeedApproval(ops: seq<Op>, trace: seq<Order>, n: nat)
    requires IsRun(ops, trace) && n < |trace|
    ensures GoodsArrived(trace[n]) ==> trace[n].status !in {Draft, Submitted}
    decreases n
  {
    if n > 0 {
      GoodsNeedApproval(ops, trace, n - 1);
      assert Step(trace[n - 1], ops[n - 1], trace[n]);
    }
  }

  /**
   * Exactly when the promise that received orders cannot be cancelled is broken: a cancellation
   * after goods have arrived goes through if and only if the order's status is APPROVED again.
   */
  lemma CancelAfterGoodsIff(ops: seq<Op>, trace: seq<Order>, n: nat)
    requires IsRun(ops, trace) && n < |ops|
    requires ops[n].Cancel? && GoodsArrived(trace[n])
    ensures trace[n + 1].status == Cancelled && trace[n] != trace[n + 1] <==> trace[n].status == Approved
  {
    GoodsNeedApproval(ops, trace, n);
    var next := n + 1;
    assert Step(trace[n], ops[n], trace[next]);
  }

  /** If no order is approved again after goods arrived, a cancelled order never received any. */
  lemma {:induction false} CancelledMeansNothingReceived(ops: seq<Op>, trace: seq<Order>, n: nat)
    requires IsRun(ops, trace) && n < |trace|
    requires forall i :: 0 <= i < n && ops[i].Approve? ==> !GoodsArrived(trace[i])
    ensures StatusShowsGoods(trace[n])
    ensures trace[n].status == Cancelled ==> !GoodsArrived(trace[n])
    decreases n
  {
    if n > 0 {
      CancelledMeansNothingReceived(ops, trace, n - 1);
      assert Step(trace[n - 1], ops[n - 1], trace[n]);
      StatusShowsGoodsIff(trace[n - 1], ops[n - 1], trace[n]);
    }
  }

  /** Otherwise the promise fails: receive, approve again, cancel. */
  lemma ReapprovalAllowsCancellation(id: string, product: string)
    ensures var lines := [OrderLine(id, product, 10_000_000, 1, 0)];
            var es := [Entry(0, 10_000_000)];
            var o1 := Order(Approved, lines, []);
            EntriesFit(lines, es) &&
            var o2 := AfterReceipt(o1, es);
            && Step(Order(Submitted, lines, []), Approve, o1)
            && Step(o1, Receive(None), o2)
            && Step(o2, Approve, o2.(status := Approved))
            && Step(o2.(status := Approved), Cancel, o2.(status := Cancelled))
            && GoodsArrived(o2.(status := Cancelled))
  {
    var lines := [OrderLine(id, product, 10_000_000, 1, 0)];
    var o1 := Order(Approved, lines, []);
    assert Outstanding(lines, 0) == [];
    assert Outstanding(lines, 1) == [Entry(0, 10_000_000)];
    assert Accepts(o1, None, [Entry(0, 10_000_000)]);
  }
}
