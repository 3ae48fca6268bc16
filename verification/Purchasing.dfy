/**
 * Purchase orders and goods receipts. Quantities are integers in units of 0.000001, so the slack
 * that the source allows on a receipt is exactly one unit. Requests may be finer than the tables,
 * whose columns hold four decimals; the acceptance and status tests see what was requested.
 */
module Purchasing {
  import opened Prelude
  import opened Selections
  import Inventory

  datatype Status = Draft | Submitted | Approved | PartiallyReceived | Received | Closed | Cancelled

  datatype OrderLine = OrderLine(
    id: string, product: string, quantity: Quantity, unitPrice: int, received: Quantity)

  /** One row per delivered line: what arrived in one receipt. */
  datatype ReceiptLine = ReceiptLine(lineId: string, product: string, quantity: Quantity)

  datatype Order = Order(status: Status, lines: seq<OrderLine>, receiptLines: seq<ReceiptLine>)

  datatype Requested = Requested(lineId: string, quantity: int)

  /** A quantity to receive on the line at a position of the order. */
  datatype Entry = Entry(line: nat, quantity: int)

  datatype Outcome =
    | Done | NotApproved | WarehouseNotFound | UnknownLine | TooMuch | NothingOutstanding | NotCancellable

  const SLACK: int := 1            // 0.000001
  const SMALLEST_REQUEST: int := 100 // 0.0001, the minimum the request validator admits

  function Remaining(l: OrderLine): Quantity {
    l.quantity - l.received
  }

  predicate FullyReceived(l: OrderLine) {
    l.received >= l.quantity - SLACK
  }

  ghost predicate DistinctLines(lines: seq<OrderLine>) {
    forall i, j :: 0 <= i < j < |lines| ==> lines[i].id != lines[j].id
  }

  /** Ids are keys, and received quantities only ever grow from zero. */
  ghost predicate ValidLines(lines: seq<OrderLine>) {
    DistinctLines(lines) && forall i :: 0 <= i < |lines| ==> lines[i].received >= 0
  }

  lemma StoredIncrement(received: Quantity, q: int)
    requires received >= 0 && q >= 0
    ensures StoredQuantity(received + q) == received + StoredQuantity(q) >= received
  {
  }

  // ---------------------------------------------------------------------------------------
  // Resolving a request into entries

  ghost predicate IsLine(lines: seq<OrderLine>, id: string, k: int) {
    0 <= k < |lines| && lines[k].id == id
  }

  ghost predicate Resolves(lines: seq<OrderLine>, r: Requested, e: Entry) {
    IsLine(lines, r.lineId, e.line) && e.quantity == r.quantity
  }

  /** Every requested line exists and fits its remaining quantity as it was before the receipt. */
  ghost predicate Acceptable(lines: seq<OrderLine>, r: Requested) {
    exists k :: IsLine(lines, r.lineId, k) && r.quantity <= Remaining(lines[k]) + SLACK
  }

  ghost predicate AcceptableUpTo(lines: seq<OrderLine>, rs: seq<Requested>, n: int) {
    forall j :: 0 <= j < n && j < |rs| ==> Acceptable(lines, rs[j])
  }

  /** The first requested line that cannot be accepted, and why. */
  ghost predicate FirstRefusal(lines: seq<OrderLine>, rs: seq<Requested>, k: int, outcome: Outcome) {
    && 0 <= k < |rs| && !Acceptable(lines, rs[k])
    && AcceptableUpTo(lines, rs, k)
    && outcome == Refusal(lines, rs[k])
  }

  ghost function Refusal(lines: seq<OrderLine>, r: Requested): Outcome {
    if exists i :: IsLine(lines, r.lineId, i) then TooMuch else UnknownLine
  }

  /** What the request validator lets through. */
  ghost predicate ValidRequest(request: Option<seq<Requested>>) {
    request.Some? ==> forall r :: r in request.value ==> r.quantity >= SMALLEST_REQUEST
  }

  function Positive(rs: seq<Requested>): (kept: seq<Requested>)
    ensures forall r :: r in kept <==> r in rs && r.quantity > 0
  {
    if |rs| == 0 then [] else
    var front, r := Positive(rs[..|rs| - 1]), rs[|rs| - 1];
    if r.quantity > 0 then front + [r] else front
  }

  function AsksForSome(): Requested -> bool {
    (r: Requested) => r.quantity > 0
  }

  /** The requests that ask for something, all of them, in their order. */
  lemma {:induction false} PositiveIsFiltered(rs: seq<Requested>)
    ensures IsFiltered(rs, AsksForSome(), Positive(rs))
  {
    if |rs| == 0 {
      NothingIsFiltered(AsksForSome());
    } else {
      var front, last := rs[..|rs| - 1], rs[|rs| - 1];
      assert rs == front + [last];
      PositiveIsFiltered(front);
      FilteredAppend(front, AsksForSome(), Positive(front), last);
    }
  }

  ghost predicate ResolveAll(lines: seq<OrderLine>, rs: seq<Requested>, es: seq<Entry>) {
    |es| == |rs| && forall i :: 0 <= i < |rs| ==> Resolves(lines, rs[i], es[i])
  }

  /** Everything outstanding on the first `n` lines. */
  function Outstanding(lines: seq<OrderLine>, n: nat): seq<Entry>
    requires n <= |lines|
  {
    if n == 0 then [] else
    var front := Outstanding(lines, n - 1);
    if Remaining(lines[n - 1]) > SLACK then front + [Entry(n - 1, Remaining(lines[n - 1]))] else front
  }

  // ---------------------------------------------------------------------------------------
  // Applying entries

  ghost predicate EntriesFit(lines: seq<OrderLine>, es: seq<Entry>) {
    forall e :: e in es ==> e.line < |lines|
  }

  /** What an entry adds to the row of line `i`. */
  ghost function StoredOn(i: nat): Entry -> int {
    (e: Entry) => if e.line == i then StoredQuantity(e.quantity) else 0
  }

  ghost function Total(es: seq<Entry>, i: nat): Quantity {
    SumByStoredQuantity(es, StoredOn(i));
    SumBy(es, StoredOn(i))
  }

  /** The order's lines after a receipt: every line grows by all entries that name it. */
  ghost function AfterEntries(lines: seq<OrderLine>, es: seq<Entry>): seq<OrderLine> {
    seq(|lines|, i requires 0 <= i < |lines| => lines[i].(received := lines[i].received + Total(es, i)))
  }

  ghost function RowsOf(lines: seq<OrderLine>, es: seq<Entry>): seq<ReceiptLine>
    requires EntriesFit(lines, es)
  {
    seq(|es|, i requires 0 <= i < |es| => assert es[i] in es;
      ReceiptLine(lines[es[i].line].id, lines[es[i].line].product, StoredQuantity(es[i].quantity)))
  }

  /** What the status test sees for a line: a map keeps only the last entry of each line. */
  function LastQuantity(es: seq<Entry>, i: nat): int {
    if |es| == 0 then 0
    else if es[|es| - 1].line == i then es[|es| - 1].quantity
    else LastQuantity(es[..|es| - 1], i)
  }

  ghost predicate LooksComplete(lines: seq<OrderLine>, es: seq<Entry>) {
    forall i :: 0 <= i < |lines| ==> lines[i].received + LastQuantity(es, i) >= lines[i].quantity - SLACK
  }

  /** The stock tables after the first entries of a receipt. */
  ghost function StockAfter(
    b: Inventory.Books, lines: seq<OrderLine>, warehouse: string, es: seq<Entry>): Inventory.Books
    requires EntriesFit(lines, es)
  {
    if |es| == 0 then b else
    var e := es[|es| - 1];
    Inventory.Receive(StockAfter(b, lines, warehouse, es[..|es| - 1]),
                      Inventory.Key(lines[e.line].product, warehouse), e.quantity, lines[e.line].unitPrice)
  }

  /** The entries of an accepted receipt; a missing or empty list of lines asks for everything. */
  ghost predicate EntriesOf(lines: seq<OrderLine>, request: Option<seq<Requested>>, es: seq<Entry>) {
    if request.Some? && request.value != [] then
      && (forall r :: r in request.value ==> Acceptable(lines, r))
      && ResolveAll(lines, Positive(request.value), es)
    else
      es == Outstanding(lines, |lines|)
  }

  ghost function AfterReceipt(o: Order, es: seq<Entry>): Order
    requires EntriesFit(o.lines, es)
  {
    Order(if LooksComplete(o.lines, es) then Received else PartiallyReceived,
          AfterEntries(o.lines, es),
          o.receiptLines + RowsOf(o.lines, es))
  }

  ghost predicate Receivable(o: Order) {
    o.status == Approved || o.status == PartiallyReceived
  }

  /** `es` is what an accepted receipt of `o` books. */
  ghost predicate Accepts(o: Order, request: Option<seq<Requested>>, es: seq<Entry>) {
    Receivable(o) && EntriesOf(o.lines, request, es) && es != []
  }

  lemma TotalAppend(es: seq<Entry>, e: Entry, i: nat)
    ensures Total(es + [e], i) == Total(es, i) + if e.line == i then StoredQuantity(e.quantity) else 0
  {
    SumByAppend(es, e, StoredOn(i));
  }

  lemma {:induction false} OutstandingFits(lines: seq<OrderLine>, n: nat)
    requires n <= |lines|
    ensures forall e :: e in Outstanding(lines, n) ==>
              e.line < n && e.quantity == Remaining(lines[e.line]) && e.quantity > SLACK
  {
    if n > 0 {
      OutstandingFits(lines, n - 1);
    }
  }

  /** What is outstanding on one line is exactly its remaining quantity. */
  lemma {:induction false} OutstandingOn(lines: seq<OrderLine>, n: nat, i: nat)
    requires n <= |lines| && i < |lines|
    ensures Total(Outstanding(lines, n), i) == LastQuantity(Outstanding(lines, n), i)
            == if i < n && Remaining(lines[i]) > SLACK then Remaining(lines[i]) else 0
  {
    if n > 0 {
      OutstandingOn(lines, n - 1, i);
      var front, e := Outstanding(lines, n - 1), Entry(n - 1, Remaining(lines[n - 1]));
      StoredQuantityIsNear(e.quantity);
      TotalAppend(front, e, i);
      assert (front + [e])[..|front|] == front;
    }
  }

  lemma OutstandingEntries(lines: seq<OrderLine>, n: nat)
    requires n <= |lines|
    ensures forall e :: e in Outstanding(lines, n) ==>
              e.line < n && e.quantity == Remaining(lines[e.line]) && e.quantity > SLACK
    ensures forall i :: 0 <= i < |lines| ==>
              Total(Outstanding(lines, n), i) == LastQuantity(Outstanding(lines, n), i)
              == if i < n && Remaining(lines[i]) > SLACK then Remaining(lines[i]) else 0
  {
    OutstandingFits(lines, n);
    forall i: nat | i < |lines|
      ensures Total(Outstanding(lines, n), i) == LastQuantity(Outstanding(lines, n), i)
              == if i < n && Remaining(lines[i]) > SLACK then Remaining(lines[i]) else 0
    {
      OutstandingOn(lines, n, i);
    }
  }

  lemma EntriesArePositive(lines: seq<OrderLine>, request: Option<seq<Requested>>, es: seq<Entry>)
    requires EntriesOf(lines, request, es)
    ensures EntriesFit(lines, es) && forall e :: e in es ==> e.quantity > 0
  {
    OutstandingEntries(lines, |lines|);
    if request.Some? && request.value != [] {
      forall e | e in es
        ensures e.line < |lines| && e.quantity > 0
      {
        var i :| 0 <= i < |es| && es[i] == e;
        assert Resolves(lines, Positive(request.value)[i], es[i]);
        assert Positive(request.value)[i] in Positive(request.value);
      }
    }
  }

  /** Every entry of a valid request leaves something in its rows. */
  lemma ValidEntriesAreStored(lines: seq<OrderLine>, request: Option<seq<Requested>>, es: seq<Entry>)
    requires EntriesOf(lines, request, es) && ValidRequest(request)
    ensures EntriesFit(lines, es)
    ensures forall e :: e in es ==> e.quantity >= SMALLEST_REQUEST && StoredQuantity(e.quantity) > 0
  {
    OutstandingEntries(lines, |lines|);
    forall e | e in es
      ensures e.line < |lines| && e.quantity >= SMALLEST_REQUEST && StoredQuantity(e.quantity) > 0
    {
      if request.Some? && request.value != [] {
        var i :| 0 <= i < |es| && es[i] == e;
        assert Resolves(lines, Positive(request.value)[i], es[i]);
        assert Positive(request.value)[i] in Positive(request.value);
      }
      StoredQuantityIsNear(e.quantity);
    }
  }

  // ---------------------------------------------------------------------------------------
  // The service

  class PurchaseService {
    var status: Status
    var lines: seq<OrderLine>
    var receiptLines: seq<ReceiptLine>
    const stock: Inventory.StockTables

    ghost function View(): Order
      reads this
    {
      Order(status, lines, receiptLines)
    }

    /** Orders placed by hand start SUBMITTED, those of the reorder service as drafts. */
    constructor (orderLines: seq<OrderLine>, automatic: bool, stock: Inventory.StockTables)
      ensures View() == Order(if automatic then Draft else Submitted, orderLines, []) && this.stock == stock
    {
      status, lines, receiptLines := if automatic then Draft else Submitted, orderLines, [];
      this.stock := stock;
    }

    /** Approval looks at no prior status. */
    method ApprovePurchaseOrder()
      modifies `status
      ensures status == Approved
    {
      status := Approved;
    }

    method CancelPurchaseOrder() returns (outcome: Outcome)
      modifies `status
      ensures outcome == if old(status) in {Draft, Submitted, Approved} then Done else NotCancellable
      ensures status == if outcome == Done then Cancelled else old(status)
    {
      if status == Received || status == PartiallyReceived || status == Closed || status == Cancelled {
        return NotCancellable;
      }
      status := Cancelled;
      return Done;
    }

    method FindLine(id: string) returns (found: Option<nat>)
      ensures found.Some? ==> IsLine(lines, id, found.value)
      ensures found.None? ==> forall k :: !IsLine(lines, id, k)
    {
      for k := 0 to |lines|
        invariant forall j :: 0 <= j < k ==> lines[j].id != id
      {
        if lines[k].id == id {
          return Some(k);
        }
      }
      return None;
    }

    /** The line that a request names, if there is one and the quantity fits. */
    method CheckRequest(r: Requested) returns (outcome: Outcome, k: nat)
      requires DistinctLines(lines)
      ensures outcome == Done <==> Acceptable(lines, r)
      ensures outcome == Done ==> IsLine(lines, r.lineId, k)
      ensures outcome != Done ==> outcome == Refusal(lines, r)
    {
      var line := FindLine(r.lineId);
      if line.None? {
        return UnknownLine, 0;
      }
      if r.quantity > Remaining(lines[line.value]) + SLACK {
        TooMuchIsNotAcceptable(lines, r, line.value);
        return TooMuch, 0;
      }
      return Done, line.value;
    }

    method RequestedLines(rs: seq<Requested>) returns (outcome: Outcome, es: seq<Entry>)
      requires DistinctLines(lines)
      ensures outcome == Done <==> forall r :: r in rs ==> Acceptable(lines, r)
      ensures outcome != Done ==> exists k :: FirstRefusal(lines, rs, k, outcome)
      ensures outcome == Done ==> ResolveAll(lines, Positive(rs), es)
    {
      es := [];
      for i := 0 to |rs|
        invariant AcceptableUpTo(lines, rs, i)
        invariant ResolveAll(lines, Positive(rs[..i]), es)
      {
        var checked, k := CheckRequest(rs[i]);
        if checked != Done {
          assert FirstRefusal(lines, rs, i, checked);
          return checked, es;
        }
        ResolveExtends(lines, rs, i, es, k);
        if rs[i].quantity > 0 {
          es := es + [Entry(k, rs[i].quantity)];
        }
      }
      assert rs[..|rs|] == rs;
      return Done, es;
    }

    method OutstandingLines() returns (es: seq<Entry>)
      ensures es == Outstanding(lines, |lines|)
    {
      es := [];
      for i := 0 to |lines|
        invariant es == Outstanding(lines, i)
      {
        var remaining := Remaining(lines[i]);
        if remaining > SLACK {
          es := es + [Entry(i, remaining)];
        }
      }
    }

    method LinesToReceive(request: Option<seq<Requested>>) returns (outcome: Outcome, es: seq<Entry>)
      requires DistinctLines(lines)
      ensures outcome == Done <==> exists es' :: EntriesOf(lines, request, es')
      ensures outcome == Done ==> EntriesOf(lines, request, es)
      ensures outcome != Done ==> request.Some? && exists k :: FirstRefusal(lines, request.value, k, outcome)
    {
      if request.Some? && |request.value| > 0 {
        outcome, es := RequestedLines(request.value);
      } else {
        es := OutstandingLines();
        outcome := Done;
      }
      assert outcome == Done ==> EntriesOf(lines, request, es);
    }

    /** The last quantity booked per line position, as the status test's map holds it. */
    method AllLinesFullyReceived(before: seq<OrderLine>, es: seq<Entry>) returns (all: bool)
      requires EntriesFit(before, es)
      ensures all <==> LooksComplete(before, es)
    {
      var increment: map<nat, int> := map[];
      for i := 0 to |es|
        invariant forall k :: k in increment ==> increment[k] == LastQuantity(es[..i], k)
        invariant forall k: nat :: k !in increment ==> LastQuantity(es[..i], k) == 0
      {
        assert es[..i + 1][..i] == es[..i];
        increment := increment[es[i].line := es[i].quantity];
      }
      assert es[..|es|] == es;
      for i := 0 to |before|
        invariant forall k :: 0 <= k < i ==>
                    before[k].received + LastQuantity(es, k) >= before[k].quantity - SLACK
      {
        var newTotal := before[i].received + if i in increment then increment[i] else 0;
        if newTotal < before[i].quantity - SLACK {
          return false;
        }
      }
      return true;
    }

    method ReceiveGoods(warehouse: string, request: Option<seq<Requested>>)
      returns (outcome: Outcome, ghost es: seq<Entry>)
      requires ValidLines(lines)
      modifies this, stock
      ensures ValidLines(lines)
      ensures outcome == Done <==>
              warehouse in stock.warehouses && exists es' :: Accepts(old(View()), request, es')
      ensures outcome == Done ==>
                && Accepts(old(View()), request, es) && EntriesFit(old(lines), es)
                && View() == AfterReceipt(old(View()), es)
                && stock.View() == StockAfter(old(stock.View()), old(lines), warehouse, es)
      ensures outcome == NotApproved <==> !Receivable(old(View()))
      ensures outcome == WarehouseNotFound <==> Receivable(old(View())) && warehouse !in stock.warehouses
      ensures outcome in {UnknownLine, TooMuch} ==>
                request.Some? && exists k :: FirstRefusal(old(lines), request.value, k, outcome)
      ensures outcome == NothingOutstanding ==> EntriesOf(old(lines), request, [])
      ensures outcome != NotCancellable
      ensures outcome != Done ==> View() == old(View()) && stock.View() == old(stock.View())
    {
      es := [];
      if status != Approved && status != PartiallyReceived {
        return NotApproved, [];
      }
      if warehouse !in stock.warehouses {
        return WarehouseNotFound, [];
      }
      var resolved, entries := LinesToReceive(request);
      if resolved != Done {
        return resolved, [];
      }
      forall es' | EntriesOf(lines, request, es')
        ensures es' == entries
      {
        EntriesAreUnique(lines, request, es', entries);
      }
      if |entries| == 0 {
        return NothingOutstanding, [];
      }
      EntriesArePositive(lines, request, entries);
      var original := lines;
      BookEntries(warehouse, entries);
      var complete := AllLinesFullyReceived(original, entries);
      status := if complete then Received else PartiallyReceived;
      assert Accepts(old(View()), request, entries);
      return Done, entries;
    }

    /** The rows of one entry, on top of those of the entries before it. */
    method BookEntry(
      warehouse: string, original: seq<OrderLine>, e: Entry, ghost es: seq<Entry>, ghost before: Inventory.Books)
      requires ValidLines(original) && EntriesFit(original, es + [e])
      requires forall x :: x in es + [e] ==> x.quantity > 0
      requires EntriesFit(original, es) && lines == AfterEntries(original, es)
      requires stock.View() == StockAfter(before, original, warehouse, es)
      modifies `lines, `receiptLines, stock
      ensures lines == AfterEntries(original, es + [e])
      ensures stock.View() == StockAfter(before, original, warehouse, es + [e])
      ensures e.line < |original|
      ensures receiptLines == old(receiptLines)
              + [ReceiptLine(original[e.line].id, original[e.line].product, StoredQuantity(e.quantity))]
    {
      assert e in es + [e] && (es + [e])[..|es|] == es;
      var line := original[e.line];
      receiptLines := receiptLines + [ReceiptLine(line.id, line.product, StoredQuantity(e.quantity))];
      BookOne(original, es, e);
      lines := lines[e.line := lines[e.line].(received := StoredQuantity(lines[e.line].received + e.quantity))];
      stock.ReceiveLine(Inventory.Key(line.product, warehouse), e.quantity, line.unitPrice);
    }

    /** The rows of one receipt: receipt lines, running totals and stock. */
    method BookEntries(warehouse: string, entries: seq<Entry>)
      requires EntriesFit(lines, entries) && ValidLines(lines) && forall e :: e in entries ==> e.quantity > 0
      modifies `lines, `receiptLines, stock
      ensures ValidLines(lines)
      ensures lines == AfterEntries(old(lines), entries)
      ensures receiptLines == old(receiptLines) + RowsOf(old(lines), entries)
      ensures stock.View() == StockAfter(old(stock.View()), old(lines), warehouse, entries)
    {
      var original := lines;
      for i := 0 to |entries|
        invariant EntriesFit(original, entries[..i])
        invariant lines == AfterEntries(original, entries[..i])
        invariant receiptLines == old(receiptLines) + RowsOf(original, entries[..i])
        invariant stock.View() == StockAfter(old(stock.View()), original, warehouse, entries[..i])
      {
        var e := entries[i];
        assert entries[..i + 1] == entries[..i] + [e];
        RowsOneMore(original, entries[..i], e);
        BookEntry(warehouse, original, e, entries[..i], old(stock.View()));
      }
      assert entries[..|entries|] == entries;
      EntriesKeepValid(original, entries);
    }
  }

  lemma ResolveExtends(lines: seq<OrderLine>, rs: seq<Requested>, i: nat, es: seq<Entry>, k: nat)
    requires i < |rs| && ResolveAll(lines, Positive(rs[..i]), es) && IsLine(lines, rs[i].lineId, k)
    ensures ResolveAll(lines, Positive(rs[..i + 1]),
                       if rs[i].quantity > 0 then es + [Entry(k, rs[i].quantity)] else es)
  {
    assert rs[..i + 1][..i] == rs[..i];
  }

  lemma TooMuchIsNotAcceptable(lines: seq<OrderLine>, r: Requested, k: nat)
    requires DistinctLines(lines) && IsLine(lines, r.lineId, k) && r.quantity > Remaining(lines[k]) + SLACK
    ensures !Acceptable(lines, r)
  {
  }

  lemma AfterOneMore(lines: seq<OrderLine>, es: seq<Entry>, e: Entry)
    requires e.line < |lines|
    ensures var before := AfterEntries(lines, es);
            AfterEntries(lines, es + [e])
            == before[e.line := before[e.line].(received := before[e.line].received + StoredQuantity(e.quantity))]
  {
    forall i: nat | i < |lines|
      ensures Total(es + [e], i) == Total(es, i) + if e.line == i then StoredQuantity(e.quantity) else 0
    {
      TotalAppend(es, e, i);
    }
  }

  /** Booked lines stay distinct and counted. */
  lemma EntriesKeepValid(lines: seq<OrderLine>, es: seq<Entry>)
    requires ValidLines(lines) && forall e :: e in es ==> e.quantity > 0
    ensures ValidLines(AfterEntries(lines, es))
  {
    forall i: nat | i < |lines|
      ensures Total(es, i) >= 0
    {
      forall e | e in es
        ensures StoredOn(i)(e) >= 0
      {
        StoredQuantityIsNear(e.quantity);
      }
      SumByNonNegative(es, StoredOn(i));
    }
  }

  lemma RowsOneMore(lines: seq<OrderLine>, es: seq<Entry>, e: Entry)
    requires EntriesFit(lines, es) && e.line < |lines|
    ensures EntriesFit(lines, es + [e])
    ensures RowsOf(lines, es + [e]) ==
            RowsOf(lines, es) + [ReceiptLine(lines[e.line].id, lines[e.line].product, StoredQuantity(e.quantity))]
  {
  }

  /** Incrementing one row is what one more entry does to the lines. */
  lemma BookOne(original: seq<OrderLine>, es: seq<Entry>, e: Entry)
    requires e.line < |original| && ValidLines(original)
    requires e.quantity > 0 && forall x :: x in es ==> x.quantity > 0
    ensures var lines := AfterEntries(original, es);
            var now := StoredQuantity(lines[e.line].received + e.quantity);
            lines[e.line := lines[e.line].(received := now)] == AfterEntries(original, es + [e])
  {
    AfterOneMore(original, es, e);
    EntriesKeepValid(original, es);
    StoredIncrement(AfterEntries(original, es)[e.line].received, e.quantity);
  }

  lemma EntriesAreUnique(lines: seq<OrderLine>, request: Option<seq<Requested>>, es: seq<Entry>, es': seq<Entry>)
    requires DistinctLines(lines)
    requires EntriesOf(lines, request, es) && EntriesOf(lines, request, es')
    ensures es == es'
  {
    if request.Some? && request.value != [] {
      var rs := Positive(request.value);
      forall i | 0 <= i < |rs|
        ensures es[i] == es'[i]
      {
        assert Resolves(lines, rs[i], es[i]) && Resolves(lines, rs[i], es'[i]);
      }
    }
  }
}
