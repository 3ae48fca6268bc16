/**
 * The three-way match of an invoice against a purchase order and a goods receipt. Prices are
 * in units of 0.0001, quantities in units of 0.000001, totals in their product.
 */
module InvoiceMatching {
  import opened Prelude
  import opened Purchasing

  datatype InvoiceLine = InvoiceLine(product: Option<string>, quantity: int, unitPrice: int)

  datatype OrderDocument = OrderDocument(id: string, vendor: string, total: int, lines: seq<OrderLine>)

  datatype MatchInput = MatchInput(
    vendor: Option<string>, total: int, lines: seq<InvoiceLine>,
    po: Option<OrderDocument>, receiptOrder: Option<string>)

  datatype Mode = LineMode | HeaderMode

  datatype Reason =
    | Matched | MissingDocument | VendorMismatch | ForeignReceipt
    | NoOrderLine(product: string) | QuantityExceeded | ZeroUnitPrice | PriceOutOfTolerance
    | ZeroOrderTotal | TotalOutOfTolerance

  datatype Verdict = Verdict(mode: Mode, reason: Reason) {
    predicate IsMatch() {
      reason == Matched
    }
  }

  const TOLERANCE: real := 0.02

  /** The relative difference of `actual` from `reference`; negative for a negative reference. */
  function Deviation(actual: int, reference: int): real
    requires reference != 0
  {
    Abs(actual - reference) as real / reference as real
  }

  function HasProduct(l: InvoiceLine): bool {
    l.product.Some? && l.product.value != ""
  }

  /** The first order line with the product. */
  function FindByProduct(lines: seq<OrderLine>, product: string): Option<OrderLine> {
    if |lines| == 0 then None
    else if lines[0].product == product then Some(lines[0])
    else FindByProduct(lines[1..], product)
  }

  function MatchLine(l: InvoiceLine, lines: seq<OrderLine>): Reason
    requires HasProduct(l)
  {
    var found := FindByProduct(lines, l.product.value);
    if found.None? then NoOrderLine(l.product.value)
    else if l.quantity > found.value.received + SLACK then QuantityExceeded
    else if found.value.unitPrice == 0 then ZeroUnitPrice
    else if Deviation(l.unitPrice, found.value.unitPrice) > TOLERANCE then PriceOutOfTolerance
    else Matched
  }

  /** The first complaint about any invoice line. */
  function MatchLines(ls: seq<InvoiceLine>, lines: seq<OrderLine>): Reason
    requires forall l :: l in ls ==> HasProduct(l)
  {
    if |ls| == 0 then Matched
    else
      var first := MatchLine(ls[0], lines);
      if first != Matched then first else MatchLines(ls[1..], lines)
  }

  function PerformThreeWayMatch(input: MatchInput): Verdict {
    if input.po.None? || input.receiptOrder.None? then Verdict(HeaderMode, MissingDocument)
    else
      var po := input.po.value;
      if input.vendor != Some(po.vendor) then Verdict(HeaderMode, VendorMismatch)
      else if input.receiptOrder.value != po.id then Verdict(HeaderMode, ForeignReceipt)
      else if |input.lines| > 0 && forall l :: l in input.lines ==> HasProduct(l) then
        Verdict(LineMode, MatchLines(input.lines, po.lines))
      else if po.total == 0 then Verdict(HeaderMode, ZeroOrderTotal)
      else if Deviation(input.total, po.total) <= TOLERANCE then Verdict(HeaderMode, Matched)
      else Verdict(HeaderMode, TotalOutOfTolerance)
  }

  // ---------------------------------------------------------------------------------------
  // What a match means

  /** The documents belong together. */
  ghost predicate DocumentsAgree(input: MatchInput) {
    && input.po.Some?
    && input.vendor == Some(input.po.value.vendor)
    && input.receiptOrder == Some(input.po.value.id)
  }

  /** `i` is the position of the first order line with the product. */
  ghost predicate IsFirstWith(lines: seq<OrderLine>, product: string, i: int) {
    && 0 <= i < |lines| && lines[i].product == product
    && forall j :: 0 <= j < i ==> lines[j].product != product
  }

  lemma {:induction false} FindByProductIsFirst(lines: seq<OrderLine>, product: string)
    ensures FindByProduct(lines, product).None? <==> forall l :: l in lines ==> l.product != product
    ensures FindByProduct(lines, product).Some? ==>
              exists i :: IsFirstWith(lines, product, i) && FindByProduct(lines, product).value == lines[i]
  {
    if |lines| > 0 {
      if lines[0].product == product {
        assert IsFirstWith(lines, product, 0);
      } else {
        FindByProductIsFirst(lines[1..], product);
        if FindByProduct(lines, product).Some? {
          var i :| IsFirstWith(lines[1..], product, i) && FindByProduct(lines, product).value == lines[1..][i];
          assert IsFirstWith(lines, product, i + 1);
        }
      }
    }
  }

  /** Within 2% of a positive reference; a negative reference accepts anything, zero nothing. */
  predicate WithinTolerance(actual: int, reference: int) {
    reference != 0 && (reference < 0 || 50 * Abs(actual - reference) <= reference)
  }

  /** The tolerance test of the source, without division. */
  lemma ToleranceWithoutDivision(actual: int, reference: int)
    requires reference != 0
    ensures Deviation(actual, reference) <= TOLERANCE <==> WithinTolerance(actual, reference)
  {
    var n := Abs(actual - reference);
    if reference > 0 {
      QuotientAtMost(n as real, reference as real, TOLERANCE);
      assert (50 * n) as real == 50.0 * n as real;
    } else {
      var d := Deviation(actual, reference);
      assert d * reference as real == n as real;
      assert d <= 0.0;
    }
  }

  lemma QuotientAtMost(a: real, r: real, bound: real)
    requires r > 0.0
    ensures a / r <= bound <==> a <= bound * r
  {
    var d := a / r;
    assert d * r == a;
    if d <= bound {
      assert d * r <= bound * r;
    } else {
      assert d * r > bound * r;
    }
  }

  /** The first order line with the product has received enough, at a price within tolerance. */
  ghost predicate CoveredBy(l: InvoiceLine, lines: seq<OrderLine>, i: int) {
    && HasProduct(l)
    && IsFirstWith(lines, l.product.value, i)
    && l.quantity <= lines[i].received + SLACK
    && WithinTolerance(l.unitPrice, lines[i].unitPrice)
  }

  ghost predicate Covered(l: InvoiceLine, lines: seq<OrderLine>) {
    exists i :: CoveredBy(l, lines, i)
  }

  lemma MatchLineIff(l: InvoiceLine, lines: seq<OrderLine>)
    requires HasProduct(l)
    ensures MatchLine(l, lines) == Matched <==> Covered(l, lines)
  {
    FindByProductIsFirst(lines, l.product.value);
    var found := FindByProduct(lines, l.product.value);
    if found.Some? {
      var i :| IsFirstWith(lines, l.product.value, i) && found.value == lines[i];
      forall j | IsFirstWith(lines, l.product.value, j)
        ensures j == i
      {
        if j < i || i < j {
          assert false;
        }
      }
      if lines[i].unitPrice != 0 {
        ToleranceWithoutDivision(l.unitPrice, lines[i].unitPrice);
      }
      assert MatchLine(l, lines) == Matched <==> CoveredBy(l, lines, i);
    }
  }

  lemma {:induction false} MatchLinesIff(ls: seq<InvoiceLine>, lines: seq<OrderLine>)
    requires forall l :: l in ls ==> HasProduct(l)
    ensures MatchLines(ls, lines) == Matched <==> forall l :: l in ls ==> Covered(l, lines)
  {
    if |ls| > 0 {
      assert ls == [ls[0]] + ls[1..];
      MatchLineIff(ls[0], lines);
      MatchLinesIff(ls[1..], lines);
    }
  }

  /** An invoice whose lines all name products matches exactly when every line is covered. */
  lemma LineMatchIff(input: MatchInput)
    requires |input.lines| > 0 && forall l :: l in input.lines ==> HasProduct(l)
    ensures PerformThreeWayMatch(input).IsMatch() <==>
            DocumentsAgree(input) && forall l :: l in input.lines ==> Covered(l, input.po.value.lines)
    ensures PerformThreeWayMatch(input).IsMatch() ==> PerformThreeWayMatch(input).mode == LineMode
  {
    if DocumentsAgree(input) {
      MatchLinesIff(input.lines, input.po.value.lines);
    }
  }

  /** Without products on every line only the grand totals count. */
  lemma HeaderMatchIff(input: MatchInput)
    requires |input.lines| == 0 || exists l :: l in input.lines && !HasProduct(l)
    ensures PerformThreeWayMatch(input).IsMatch() <==>
            DocumentsAgree(input) && WithinTolerance(input.total, input.po.value.total)
  {
    if DocumentsAgree(input) && input.po.value.total != 0 {
      ToleranceWithoutDivision(input.total, input.po.value.total);
    }
  }

  /** An order price of -0.0001 accepts any invoiced price whatever. */
  lemma NegativePriceAcceptsAnything(order: string, vendor: string, id: string, product: string, unitPrice: int)
    requires product != ""
    ensures var po := OrderDocument(order, vendor, -1000, [OrderLine(id, product, 1000, -1, 1000)]);
            var lines := [InvoiceLine(Some(product), 1000, unitPrice)];
            PerformThreeWayMatch(MatchInput(Some(vendor), 1000 * unitPrice, lines, Some(po), Some(order))).IsMatch()
  {
    var line := OrderLine(id, product, 1000, -1, 1000);
    var l := InvoiceLine(Some(product), 1000, unitPrice);
    assert CoveredBy(l, [line], 0);
    var po := OrderDocument(order, vendor, -1000, [line]);
    LineMatchIff(MatchInput(Some(vendor), 1000 * unitPrice, [l], Some(po), Some(order)));
  }

  // ---------------------------------------------------------------------------------------
  // The bound on what a line-level match lets through

  ghost function InvoiceLineValue(): InvoiceLine -> int {
    (l: InvoiceLine) => Worth(l.quantity, l.unitPrice)
  }

  /** What was received on an order line, plus the slack, at the order's price. */
  ghost function Cap(l: OrderLine): int {
    Worth(l.received + SLACK, l.unitPrice)
  }

  /** The most that an order line justifies, counting only products in `ps`. */
  ghost function Justified(ps: set<string>): OrderLine -> int {
    (l: OrderLine) => if l.product in ps then Cap(l) else 0
  }

  ghost function Everything(): OrderLine -> int {
    (l: OrderLine) => Cap(l)
  }

  ghost predicate DistinctProducts(ls: seq<InvoiceLine>) {
    forall i, j :: 0 <= i < j < |ls| ==> ls[i].product != ls[j].product
  }

  ghost function ProductsOf(ls: seq<InvoiceLine>): set<string> {
    set l | l in ls && l.product.Some? :: l.product.value
  }

  lemma CapIsNonNegative(l: OrderLine)
    requires l.unitPrice > 0 && l.received >= 0
    ensures Cap(l) >= 0
  {
  }

  lemma WorthIsMonotone(a: int, b: int, p: int)
    requires a <= b && p >= 0
    ensures Worth(a, p) <= Worth(b, p) && Worth(p, a) <= Worth(p, b)
  {
  }

  lemma WorthScales(a: int, b: int)
    ensures Worth(a, 50 * b) == 50 * Worth(a, b) && Worth(a, 51 * b) == 51 * Worth(a, b)
  {
  }

  lemma CappedValue(q: int, p: int, cap: int, o: int)
    requires 0 <= q <= cap && o > 0 && 50 * p <= 51 * o
    ensures 50 * Worth(q, p) <= 51 * Worth(cap, o)
  {
    WorthIsMonotone(50 * p, 51 * o, q);
    WorthScales(q, p);
    WorthScales(q, o);
    WorthIsMonotone(q, cap, o);
  }

  /** The order line that covers an invoice line also caps its value. */
  lemma CoveringLine(l: InvoiceLine, lines: seq<OrderLine>) returns (i: nat)
    requires Covered(l, lines) && l.quantity >= 0
    requires forall x :: x in lines ==> x.unitPrice > 0 && x.received >= 0
    ensures IsFirstWith(lines, l.product.value, i)
    ensures 50 * Worth(l.quantity, l.unitPrice) <= 51 * Cap(lines[i])
  {
    i :| CoveredBy(l, lines, i);
    assert lines[i] in lines;
    CappedValue(l.quantity, l.unitPrice, lines[i].received + SLACK, lines[i].unitPrice);
  }

  /** Adding a product to the set adds at least its first line. */
  lemma {:induction false} JustifiedGrows(lines: seq<OrderLine>, ps: set<string>, product: string, i: nat)
    requires forall x :: x in lines ==> x.unitPrice > 0 && x.received >= 0
    requires product !in ps && i < |lines| && lines[i].product == product
    ensures SumBy(lines, Justified(ps + {product})) >= SumBy(lines, Justified(ps)) + Cap(lines[i])
  {
    var n := |lines| - 1;
    var front := lines[..n];
    assert forall x :: x in front ==> x in lines;
    assert lines[n] in lines;
    CapIsNonNegative(lines[n]);
    if i < n {
      JustifiedGrows(front, ps, product, i);
    } else {
      JustifiedIsMonotone(front, ps, product);
    }
  }

  lemma {:induction false} JustifiedIsMonotone(lines: seq<OrderLine>, ps: set<string>, product: string)
    requires forall x :: x in lines ==> x.unitPrice > 0 && x.received >= 0
    ensures SumBy(lines, Justified(ps + {product})) >= SumBy(lines, Justified(ps))
  {
    if |lines| > 0 {
      var n := |lines| - 1;
      assert forall x :: x in lines[..n] ==> x in lines;
      assert lines[n] in lines;
      CapIsNonNegative(lines[n]);
      JustifiedIsMonotone(lines[..n], ps, product);
    }
  }

  lemma {:induction false} JustifiedIsBounded(lines: seq<OrderLine>, ps: set<string>)
    requires forall x :: x in lines ==> x.unitPrice > 0 && x.received >= 0
    ensures SumBy(lines, Justified(ps)) <= SumBy(lines, Everything())
  {
    if |lines| > 0 {
      var n := |lines| - 1;
      assert forall x :: x in lines[..n] ==> x in lines;
      assert lines[n] in lines;
      CapIsNonNegative(lines[n]);
      JustifiedIsBounded(lines[..n], ps);
    }
  }

  lemma {:induction false} CoveredLinesBound(ls: seq<InvoiceLine>, lines: seq<OrderLine>)
    requires forall x :: x in lines ==> x.unitPrice > 0 && x.received >= 0
    requires DistinctProducts(ls) && forall l :: l in ls ==> Covered(l, lines) && l.quantity >= 0
    ensures 50 * SumBy(ls, InvoiceLineValue()) <= 51 * SumBy(lines, Justified(ProductsOf(ls)))
  {
    if |ls| == 0 {
      JustifiedNothing(lines);
      assert ProductsOf(ls) == {};
    } else {
      var n := |ls| - 1;
      var front, l := ls[..n], ls[n];
      assert forall x :: x in front ==> x in ls;
      CoveredLinesBound(front, lines);
      var i := CoveringLine(l, lines);
      assert ls == front + [l];
      assert ProductsOf(ls) == ProductsOf(front) + {l.product.value};
      JustifiedGrows(lines, ProductsOf(front), l.product.value, i);
    }
  }

  lemma {:induction false} JustifiedNothing(lines: seq<OrderLine>)
    ensures SumBy(lines, Justified({})) == 0
  {
    if |lines| > 0 {
      JustifiedNothing(lines[..|lines| - 1]);
    }
  }

  /**
   * A line-level match on distinct products never lets the invoiced value exceed 1.02 times the
   * received quantities (plus the slack) at order prices.
   */
  lemma MatchedInvoiceIsBounded(input: MatchInput)
    requires PerformThreeWayMatch(input).IsMatch() && PerformThreeWayMatch(input).mode == LineMode
    requires forall x :: x in input.po.value.lines ==> x.unitPrice > 0 && x.received >= 0
    requires DistinctProducts(input.lines) && forall l :: l in input.lines ==> l.quantity >= 0
    ensures 50 * SumBy(input.lines, InvoiceLineValue()) <= 51 * SumBy(input.po.value.lines, Everything())
  {
    var lines := input.po.value.lines;
    MatchLinesIff(input.lines, lines);
    CoveredLinesBound(input.lines, lines);
    JustifiedIsBounded(lines, ProductsOf(input.lines));
  }
}
