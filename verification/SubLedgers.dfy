/**
 * The general ledger against the two sub-ledgers: payables, whose invoices are announced when they
 * are approved, and receivables, whose invoices are announced when they are created. Payments of
 * both are announced when they are recorded.
 */
module SubLedgers {
  import opened Prelude
  import opened GeneralLedger
  import opened LedgerRuns
  import Payables
  import PayableRuns
  import Receivables

  // ---------------------------------------------------------------------------------------
  // The documents that the ledger reads are the rows of the sub-ledgers

  /** Generated ids of a table's rows, row by row. */
  ghost predicate NamesRows(documents: map<string, Document>, kind: Kind, ids: seq<string>, n: nat) {
    && |ids| == n && Distinct(ids)
    && (forall id :: id in ids <==> id in documents && KindOf(documents[id]) == kind)
  }

  ghost function ArIds(ar: Receivables.Books): seq<string> {
    seq(|ar.invoices|, k requires 0 <= k < |ar.invoices| => ar.invoices[k].id)
  }

  /** `apIds` and `arIds` are the ids that the database gave the payments. */
  ghost predicate Mirrors(
    documents: map<string, Document>, ap: Payables.Books, ar: Receivables.Books, apIds: seq<string>, arIds: seq<string>)
  {
    && (forall id :: id in ap.invoices <==> id in documents && KindOf(documents[id]) == ApInvoiceKind)
    && (forall id :: id in ap.invoices ==> documents[id] == Document.ApInvoice(ap.invoices[id].total))
    && NamesRows(documents, ArInvoiceKind, ArIds(ar), |ar.invoices|)
    && (forall k :: 0 <= k < |ar.invoices| ==>
          documents[ArIds(ar)[k]] == Document.ArInvoice(ar.invoices[k].total))
    && NamesRows(documents, ApPaymentKind, apIds, |ap.payments|)
    && (forall k :: 0 <= k < |ap.payments| ==> documents[apIds[k]] == Document.ApPayment(ap.payments[k].amount))
    && NamesRows(documents, ArPaymentKind, arIds, |ar.payments|)
    && (forall k :: 0 <= k < |ar.payments| ==> documents[arIds[k]] == Document.ArPayment(ar.payments[k].amount))
  }

  /** An event was emitted for the document: always, except for a payable invoice not approved. */
  ghost predicate Emitted(documents: map<string, Document>, ap: Payables.Books, id: string) {
    && id in documents
    && (documents[id].ApInvoice? ==> id in ap.approvals)
  }

  /** Only emitted events are delivered, and each positive one at least once into an open period. */
  ghost predicate EventsReachLedger(steps: seq<Step>, ap: Payables.Books) {
    var documents := Run(steps).documents;
    forall id :: id in documents && !documents[id].PayrollRun? ==>
      && (Delivered(steps, id) ==> Emitted(documents, ap, id))
      && (Emitted(documents, ap, id) && AmountOf(documents[id]) > 0 ==> Delivered(steps, id))
  }

  // ---------------------------------------------------------------------------------------
  // The totals of the sub-ledgers

  function Positive(amount: int): nat {
    if amount > 0 then amount else 0
  }

  /** What an approved, partially paid or paid invoice put into the ledger. */
  ghost function EnteredOf(ap: Payables.Books): string -> int {
    (id: string) =>
      if id in ap.invoices && Payables.EnteredLedger(ap.invoices[id].status) then Positive(ap.invoices[id].total) else 0
  }

  ghost function Entered(ap: Payables.Books): int {
    SumOver(ap.invoices.Keys, EnteredOf(ap))
  }

  function PaidOutAmount(): Payables.Payment -> int {
    (p: Payables.Payment) => p.amount
  }

  ghost function PaidOut(ap: Payables.Books): int {
    SumBy(ap.payments, PaidOutAmount())
  }

  function IssuedAmount(): Receivables.Invoice -> int {
    (i: Receivables.Invoice) => Positive(i.total)
  }

  ghost function Issued(ar: Receivables.Books): int {
    SumBy(ar.invoices, IssuedAmount())
  }

  function CollectedAmount(): Receivables.Payment -> int {
    (p: Receivables.Payment) => p.amount
  }

  ghost function Collected(ar: Receivables.Books): int {
    SumBy(ar.payments, CollectedAmount())
  }

  // ---------------------------------------------------------------------------------------
  // Sums over rows and sums over ids

  ghost function Elements(ids: seq<string>): set<string> {
    set id | id in ids
  }

  lemma {:induction false} SumOverNames<T>(ids: seq<string>, rows: seq<T>, f: string -> int, g: T -> int)
    requires |ids| == |rows| && Distinct(ids)
    requires forall k :: 0 <= k < |ids| ==> f(ids[k]) == g(rows[k])
    ensures SumOver(Elements(ids), f) == SumBy(rows, g)
    decreases |ids|
  {
    if |ids| > 0 {
      var n := |ids| - 1;
      SumOverNames(ids[..n], rows[..n], f, g);
      assert ids == ids[..n] + [ids[n]];
      assert Elements(ids) == Elements(ids[..n]) + {ids[n]};
      assert ids[n] !in ids[..n];
      SumOverAdd(Elements(ids[..n]), ids[n], f);
    }
  }

  /** Elements on which a function is zero do not matter. */
  lemma SumOverSupport(s: set<string>, t: set<string>, f: string -> int)
    requires forall x :: x in s && x !in t ==> f(x) == 0
    requires forall x :: x in t && x !in s ==> f(x) == 0
    ensures SumOver(s, f) == SumOver(t, f)
  {
    var both := s * t;
    SumOverZero(s - both, f);
    SumOverZero(t - both, f);
    SumOverUnion(both, s - both, f);
    SumOverUnion(both, t - both, f);
    assert both + (s - both) == s && both + (t - both) == t;
  }

  /** The delivered amounts of a table whose rows are all announced are the sum over its rows. */
  lemma DeliveredRows<T>(
    steps: seq<Step>, ap: Payables.Books, kind: Kind, ids: seq<string>, rows: seq<T>, g: T -> int)
    requires EventsReachLedger(steps, ap) && kind != ApInvoiceKind && kind != PayrollKind
    requires NamesRows(Run(steps).documents, kind, ids, |rows|)
    requires forall k :: 0 <= k < |rows| ==> AmountOf(Run(steps).documents[ids[k]]) == g(rows[k])
    ensures DeliveredTotal(steps, kind) == SumBy(rows, g)
  {
    var documents := Run(steps).documents;
    var f := OfKind(documents, kind);
    forall id | id in ids
      ensures f(id) == AmountOf(documents[id])
      ensures id !in DeliveredIds(steps) ==> f(id) == 0
    {
      assert Emitted(documents, ap, id);
    }
    SumOverSupport(DeliveredIds(steps), Elements(ids), f);
    assert forall k :: 0 <= k < |ids| ==> ids[k] in ids;
    SumOverNames(ids, rows, f, g);
  }

  lemma DeliveredPayables(
    steps: seq<Step>, ops: seq<PayableRuns.Op>, ar: Receivables.Books, apIds: seq<string>, arIds: seq<string>)
    requires PayableRuns.AdmissibleRun(ops)
    requires Mirrors(Run(steps).documents, PayableRuns.Run(ops), ar, apIds, arIds)
    requires EventsReachLedger(steps, PayableRuns.Run(ops))
    ensures DeliveredTotal(steps, ApInvoiceKind) == Entered(PayableRuns.Run(ops))
  {
    var documents, ap := Run(steps).documents, PayableRuns.Run(ops);
    var f := OfKind(documents, ApInvoiceKind);
    PayableRuns.RunKeepsConsistent(ops);
    forall id | id in ap.invoices
      ensures id in DeliveredIds(steps) ==> f(id) == EnteredOf(ap)(id)
      ensures id !in DeliveredIds(steps) ==> EnteredOf(ap)(id) == 0
    {
      assert PayableRuns.InvoiceConsistent(ap, id);
      assert Emitted(documents, ap, id) <==> Payables.EnteredLedger(ap.invoices[id].status);
    }
    var delivered := DeliveredIds(steps) * ap.invoices.Keys;
    SumOverSupport(DeliveredIds(steps), delivered, f);
    SumOverSupport(ap.invoices.Keys, delivered, EnteredOf(ap));
    SumOverAgree(delivered, f, EnteredOf(ap));
  }

  // ---------------------------------------------------------------------------------------
  // The control accounts

  /** Final states of a payables run and a receivables run, seen by a ledger run. */
  ghost predicate Joined(
    steps: seq<Step>, apOps: seq<PayableRuns.Op>, arOps: seq<Receivables.Op>, arTrace: seq<Receivables.Books>,
    apIds: seq<string>, arIds: seq<string>)
  {
    && LedgerRuns.AdmissibleRun(steps) && PayableRuns.AdmissibleRun(apOps) && Receivables.IsRun(arOps, arTrace)
    && Mirrors(Run(steps).documents, PayableRuns.Run(apOps), arTrace[|arOps|], apIds, arIds)
    && EventsReachLedger(steps, PayableRuns.Run(apOps))
  }

  /**
   * Whatever the order and duplication of deliveries, with pending and cancelled invoices in the
   * tables and any manual entries in the ledger: apart from the latter the four control accounts
   * equal the sums over the invoices that entered the ledger and over the payments.
   */
  lemma ControlAccountsMatchSubLedgers(
    steps: seq<Step>, apOps: seq<PayableRuns.Op>, arOps: seq<Receivables.Op>, arTrace: seq<Receivables.Books>,
    apIds: seq<string>, arIds: seq<string>)
    requires Joined(steps, apOps, arOps, arTrace, apIds, arIds)
    ensures var ap, ar := PayableRuns.Run(apOps), arTrace[|arOps|];
            && AutomaticBalance(steps, "1000") == Collected(ar) - PaidOut(ap)
            && AutomaticBalance(steps, "1200") == Issued(ar) - Collected(ar)
            && AutomaticBalance(steps, "1300") == Entered(ap)
            && AutomaticBalance(steps, "2000") == PaidOut(ap) - Entered(ap)
  {
    var ap, ar := PayableRuns.Run(apOps), arTrace[|arOps|];
    ControlAccountsMatchDeliveries(steps);
    DeliveredPayables(steps, apOps, ar, apIds, arIds);
    DeliveredRows(steps, ap, ArInvoiceKind, ArIds(ar), ar.invoices, IssuedAmount());
    PayableRuns.PaymentsAreNotNegative(apOps);
    DeliveredRows(steps, ap, ApPaymentKind, apIds, ap.payments, PaidOutAmount());
    Receivables.PaymentsAreNotNegative(arOps, arTrace, |arOps|);
    DeliveredRows(steps, ap, ArPaymentKind, arIds, ar.payments, CollectedAmount());
  }

  /** A pending invoice is a document without an event: the law covers it and the ledger ignores it. */
  lemma PendingInvoiceIsCovered(id: string, dto: Payables.NewInvoice)
    requires !Payables.AutoApproves(dto, None, None)
    ensures var steps := [AddDocument(id, Document.ApInvoice(Stored(dto.total)))];
            && Joined(steps, [PayableRuns.Create(id, dto, None, None)], [], [Receivables.Books(map[], [], [])], [], [])
            && Balance(Run(steps).entries, "1300") == 0
  {
    var add, create := AddDocument(id, Document.ApInvoice(Stored(dto.total))), PayableRuns.Create(id, dto, None, None);
    assert [add][..0] == [] && [create][..0] == [];
    var b := Run([add]);
    assert b == Apply(Run([]), add);
    assert b.documents == map[id := Document.ApInvoice(Stored(dto.total))] && b.entries == [];
    var ap := PayableRuns.Run([create]);
    assert ap == PayableRuns.Apply(PayableRuns.Run([]), create);
    assert ap.invoices.Keys == {id} && ap.payments == [] && ap.approvals == [];
    forall i
      ensures !DeliveredOpen([add], id, i)
    {
    }
    assert EventsReachLedger([add], ap);
    assert Mirrors(b.documents, ap, Receivables.Books(map[], [], []), [], []);
  }

  // ---------------------------------------------------------------------------------------
  // Open items

  ghost function PaidIn(payments: seq<Payables.Payment>): string -> int {
    (id: string) => SumBy(payments, Payables.PaidOn(id))
  }

  /** Every payment counts for exactly one invoice. */
  lemma {:induction false} PaymentsByInvoice(ids: set<string>, payments: seq<Payables.Payment>)
    requires forall p :: p in payments ==> p.invoice in ids
    ensures SumOver(ids, PaidIn(payments)) == SumBy(payments, PaidOutAmount())
  {
    if |payments| == 0 {
      SumOverZero(ids, PaidIn(payments));
    } else {
      var front, p := payments[..|payments| - 1], payments[|payments| - 1];
      assert p in payments;
      PaymentsByInvoice(ids, front);
      SumOverRemove(ids, p.invoice, PaidIn(payments));
      SumOverRemove(ids, p.invoice, PaidIn(front));
      SumOverAgree(ids - {p.invoice}, PaidIn(payments), PaidIn(front));
    }
  }

  /** What is still owed on an invoice; nothing on one that never entered the ledger. */
  ghost function OwedOf(ap: Payables.Books): string -> int {
    (id: string) =>
      if id in ap.invoices && Payables.EnteredLedger(ap.invoices[id].status)
      then Positive(ap.invoices[id].total) - Payables.PaidTotal(ap, id) else 0
  }

  /** Accounts payable is the open balance of every invoice that entered the ledger, and no more. */
  lemma PayablesAreOpenBalances(
    steps: seq<Step>, apOps: seq<PayableRuns.Op>, arOps: seq<Receivables.Op>, arTrace: seq<Receivables.Books>,
    apIds: seq<string>, arIds: seq<string>)
    requires Joined(steps, apOps, arOps, arTrace, apIds, arIds)
    ensures var ap := PayableRuns.Run(apOps);
            -AutomaticBalance(steps, "2000") == SumOver(ap.invoices.Keys, OwedOf(ap))
  {
    var ap := PayableRuns.Run(apOps);
    ControlAccountsMatchSubLedgers(steps, apOps, arOps, arTrace, apIds, arIds);
    PayableRuns.RunKeepsConsistent(apOps);
    PaymentsByInvoice(ap.invoices.Keys, ap.payments);
    forall id | id in ap.invoices.Keys
      ensures OwedOf(ap)(id) == EnteredOf(ap)(id) - PaidIn(ap.payments)(id)
    {
      assert PayableRuns.InvoiceConsistent(ap, id);
    }
    DifferenceOfSums(ap.invoices.Keys, OwedOf(ap), EnteredOf(ap), PaidIn(ap.payments));
  }

  function ReceivedOn(payments: seq<Receivables.Payment>): Receivables.Invoice -> int {
    (i: Receivables.Invoice) => Receivables.PaidAmount(payments, i.id)
  }

  function AmountFor(p: Receivables.Payment): Receivables.Invoice -> int {
    (i: Receivables.Invoice) => if p.invoice == i.id then p.amount else 0
  }

  /** Every customer payment counts for exactly one invoice. */
  lemma {:induction false} CollectionsByInvoice(invoices: seq<Receivables.Invoice>, payments: seq<Receivables.Payment>)
    requires forall i, j :: 0 <= i < j < |invoices| ==> invoices[i].id != invoices[j].id
    requires forall p :: p in payments ==> exists k :: 0 <= k < |invoices| && invoices[k].id == p.invoice
    ensures SumBy(invoices, ReceivedOn(payments)) == SumBy(payments, CollectedAmount())
    decreases |payments|
  {
    if |payments| == 0 {
      SumByZero(invoices, ReceivedOn(payments));
    } else {
      var front, p := payments[..|payments| - 1], payments[|payments| - 1];
      assert p in payments;
      CollectionsByInvoice(invoices, front);
      var k :| 0 <= k < |invoices| && invoices[k].id == p.invoice;
      forall i | 0 <= i < |invoices| && i != k
        ensures AmountFor(p)(invoices[i]) == 0
      {
        assert invoices[i].id != invoices[k].id;
      }
      SumBySingle(invoices, k, AmountFor(p));
      SumByPlus(invoices, ReceivedOn(payments), ReceivedOn(front), AmountFor(p));
    }
  }

  lemma {:induction false} SumByPlus<T>(s: seq<T>, f: T -> int, g: T -> int, h: T -> int)
    requires forall x :: x in s ==> f(x) == g(x) + h(x)
    ensures SumBy(s, f) == SumBy(s, g) + SumBy(s, h)
  {
    if |s| > 0 {
      assert s[|s| - 1] in s;
      SumByPlus(s[..|s| - 1], f, g, h);
    }
  }

  /** What a customer still owes on an invoice. */
  function DueOn(payments: seq<Receivables.Payment>): Receivables.Invoice -> int {
    (i: Receivables.Invoice) => Positive(i.total) - Receivables.PaidAmount(payments, i.id)
  }

  /** Accounts receivable is the open balance of every customer invoice. */
  lemma ReceivablesAreOpenBalances(
    steps: seq<Step>, apOps: seq<PayableRuns.Op>, arOps: seq<Receivables.Op>, arTrace: seq<Receivables.Books>,
    apIds: seq<string>, arIds: seq<string>)
    requires Joined(steps, apOps, arOps, arTrace, apIds, arIds)
    ensures var ar := arTrace[|arOps|];
            AutomaticBalance(steps, "1200") == SumBy(ar.invoices, DueOn(ar.payments))
  {
    var ar := arTrace[|arOps|];
    ControlAccountsMatchSubLedgers(steps, apOps, arOps, arTrace, apIds, arIds);
    Receivables.RunKeepsInv(arOps, arTrace, |arOps|);
    forall p | p in ar.payments
      ensures exists k :: 0 <= k < |ar.invoices| && ar.invoices[k].id == p.invoice
    {
      var k :| Receivables.IsInvoice(ar, p.invoice, k);
    }
    CollectionsByInvoice(ar.invoices, ar.payments);
    SumByPlus(ar.invoices, IssuedAmount(), DueOn(ar.payments), ReceivedOn(ar.payments));
  }
}
