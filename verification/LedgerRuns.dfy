/** What every run of postings, deliveries, period changes and new documents keeps. */
module LedgerRuns {
  import opened Prelude
  import opened Selections
  import opened GeneralLedger

  datatype Step =
    | AddDocument(id: string, document: Document)
    | OpenPeriod(period: string)
    | ClosePeriod(period: string)
    | AddAccount(code: string, kind: AccountType)
    | Manual(period: string, source: Option<Source>, lines: seq<Line>)
    | Deliver(event: Event, now: string)

  ghost function Apply(b: Books, step: Step): Books {
    match step
    case AddDocument(id, document) => b.(documents := b.documents[id := document])
    case OpenPeriod(p) => if p in b.periods then b else b.(periods := b.periods[p := false])
    case ClosePeriod(p) => if p in b.periods then b.(periods := b.periods[p := true]) else b
    case AddAccount(code, kind) => if code in b.accounts then b else b.(accounts := b.accounts[code := kind])
    case Manual(period, source, lines) => AfterEntry(b, period, source, lines)
    case Deliver(event, now) => AfterDelivery(b, event, now)
  }

  ghost function Run(steps: seq<Step>): Books {
    if |steps| == 0 then Books(map[], map[], map[], []) else Apply(Run(steps[..|steps| - 1]), steps[|steps| - 1])
  }

  // ---------------------------------------------------------------------------------------
  // The trial balance

  function Net(): Line -> int {
    (l: Line) => l.debit - l.credit
  }

  /** Debits less credits, as they are stored. */
  function Imbalance(e: Entry): int {
    SumBy(e.lines, Net())
  }

  lemma {:induction false} NetIsDebitMinusCredit(lines: seq<Line>)
    ensures SumBy(lines, Net()) == SumBy(lines, Debit()) - SumBy(lines, Credit())
  {
    if |lines| > 0 {
      NetIsDebitMinusCredit(lines[..|lines| - 1]);
    }
  }

  /** No amount of a line has more than four decimals. */
  predicate FourDecimalLines(lines: seq<Line>) {
    forall l :: l in lines ==> l.debit % COLUMN_STEP == 0 && l.credit % COLUMN_STEP == 0
  }

  function StoredLine(l: Line): Line {
    Line(l.account, Stored(l.debit), Stored(l.credit))
  }

  lemma StoredLineIsNear(l: Line)
    ensures Abs(Net()(StoredLine(l)) - Net()(l)) <= COLUMN_STEP
    ensures l.debit % COLUMN_STEP == 0 && l.credit % COLUMN_STEP == 0 ==> StoredLine(l) == l
  {
    StoredIsNear(l.debit);
    StoredIsNear(l.credit);
  }

  lemma StoredNetSplits(lines: seq<Line>)
    requires |lines| > 0
    ensures var n := |lines| - 1;
            SumBy(StoredLines(lines), Net()) == SumBy(StoredLines(lines[..n]), Net()) + Net()(StoredLine(lines[n]))
  {
    var n := |lines| - 1;
    assert StoredLines(lines) == StoredLines(lines[..n]) + [StoredLine(lines[n])];
    SumByAppend(StoredLines(lines[..n]), StoredLine(lines[n]), Net());
  }

  lemma DriftAdds(a': int, a: int, n: nat, b': int, b: int)
    requires Abs(a' - a) <= n * COLUMN_STEP && Abs(b' - b) <= COLUMN_STEP
    ensures Abs(a' + b' - (a + b)) <= (n + 1) * COLUMN_STEP
  {
  }

  /** Storing the lines of an entry moves its imbalance by at most a step per line. */
  lemma {:induction false} StoredNet(lines: seq<Line>)
    ensures Abs(SumBy(StoredLines(lines), Net()) - SumBy(lines, Net())) <= |lines| * COLUMN_STEP
  {
    if |lines| > 0 {
      var n := |lines| - 1;
      StoredNet(lines[..n]);
      StoredNetSplits(lines);
      StoredLineIsNear(lines[n]);
      DriftAdds(SumBy(StoredLines(lines[..n]), Net()), SumBy(lines[..n], Net()), n,
                Net()(StoredLine(lines[n])), Net()(lines[n]));
    }
  }

  lemma FourDecimalLinesAreStored(lines: seq<Line>)
    requires FourDecimalLines(lines)
    ensures StoredLines(lines) == lines
  {
    forall i | 0 <= i < |lines|
      ensures StoredLines(lines)[i] == lines[i]
    {
      assert lines[i] in lines;
      StoredLineIsNear(lines[i]);
    }
  }

  lemma WithinBoth(x: int, y: int, near: int, slack: int)
    requires Abs(x - y) <= slack && Abs(y) <= near
    ensures Abs(x) <= near + slack
  {
  }

  /** The accounts exist, and the lines balance within the tolerance and a step per line. */
  ghost predicate EntryBalanced(b: Books, e: Entry) {
    && Abs(Imbalance(e)) <= EPSILON + |e.lines| * COLUMN_STEP
    && forall l :: l in e.lines ==> l.account in b.accounts
  }

  ghost predicate Balanced(b: Books) {
    forall e :: e in b.entries ==> EntryBalanced(b, e)
  }

  lemma AfterEntryKeepsBalanced(b: Books, period: string, source: Option<Source>, lines: seq<Line>)
    requires Balanced(b)
    ensures Balanced(AfterEntry(b, period, source, lines))
  {
    var after := AfterEntry(b, period, source, lines);
    if after != b {
      var e := Entry(period, source, StoredLines(lines));
      StoredNet(lines);
      NetIsDebitMinusCredit(lines);
      WithinBoth(Imbalance(e), SumBy(lines, Net()), EPSILON, |lines| * COLUMN_STEP);
      forall l | l in e.lines
        ensures l.account in b.accounts
      {
        var i :| 0 <= i < |lines| && e.lines[i] == l;
        assert lines[i] in lines;
      }
      assert EntryBalanced(b, e);
      forall x | x in after.entries
        ensures EntryBalanced(after, x)
      {
        assert x in b.entries || x == e;
        assert EntryBalanced(b, x);
      }
    }
  }

  lemma StepKeepsBalanced(b: Books, step: Step)
    requires Balanced(b)
    ensures Balanced(Apply(b, step))
  {
    match step
    case Manual(period, source, lines) => AfterEntryKeepsBalanced(b, period, source, lines);
    case Deliver(event, now) =>
      if Apply(b, step) != b {
        var p := PostingOf(b.documents, event).value;
        MoreAccountsKeepBalanced(b, Prepared(b, p, now));
        AfterEntryKeepsBalanced(Prepared(b, p, now), now, Some(p.source), LinesOf(p));
      }
    case AddDocument(_, _) => MoreAccountsKeepBalanced(b, Apply(b, step));
    case OpenPeriod(_) => MoreAccountsKeepBalanced(b, Apply(b, step));
    case ClosePeriod(_) => MoreAccountsKeepBalanced(b, Apply(b, step));
    case AddAccount(_, _) => MoreAccountsKeepBalanced(b, Apply(b, step));
  }

  lemma MoreAccountsKeepBalanced(b: Books, after: Books)
    requires Balanced(b) && after.entries == b.entries && b.accounts.Keys <= after.accounts.Keys
    ensures Balanced(after)
  {
    forall e | e in after.entries
      ensures EntryBalanced(after, e)
    {
      assert EntryBalanced(b, e);
    }
  }

  lemma {:induction false} RunIsBalanced(steps: seq<Step>)
    ensures Balanced(Run(steps))
  {
    if |steps| > 0 {
      RunIsBalanced(steps[..|steps| - 1]);
      StepKeepsBalanced(Run(steps[..|steps| - 1]), steps[|steps| - 1]);
    }
  }

  ghost function BalanceIn(lines: seq<Line>): string -> int {
    (a: string) => SumBy(lines, OnAccount(a))
  }

  /** Summing balances over all accounts counts every line once. */
  lemma {:induction false} BalancesCoverLines(accounts: set<string>, lines: seq<Line>)
    requires forall l :: l in lines ==> l.account in accounts
    ensures SumOver(accounts, BalanceIn(lines)) == SumBy(lines, Net())
  {
    if |lines| == 0 {
      SumOverZero(accounts, BalanceIn(lines));
    } else {
      var front, l := lines[..|lines| - 1], lines[|lines| - 1];
      BalancesCoverLines(accounts, front);
      assert l in lines;
      SumOverRemove(accounts, l.account, BalanceIn(lines));
      SumOverRemove(accounts, l.account, BalanceIn(front));
      SumOverAgree(accounts - {l.account}, BalanceIn(lines), BalanceIn(front));
    }
  }

  lemma {:induction false} SumOverZero(s: set<string>, f: string -> int)
    requires forall x :: x in s ==> f(x) == 0
    ensures SumOver(s, f) == 0
    decreases |s|
  {
    if s != {} {
      var x :| x in s;
      SumOverRemove(s, x, f);
      SumOverZero(s - {x}, f);
    }
  }

  /** The net of all lines is bounded by what every entry and every line may be off. */
  lemma {:induction false} LinesNetWithin(entries: seq<Entry>, perEntry: nat, perLine: nat)
    requires forall e :: e in entries ==> Abs(Imbalance(e)) <= perEntry + |e.lines| * perLine
    ensures Abs(SumBy(AllLines(entries), Net())) <= |entries| * perEntry + |AllLines(entries)| * perLine
  {
    if |entries| > 0 {
      var front, e := entries[..|entries| - 1], entries[|entries| - 1];
      LinesNetWithin(front, perEntry, perLine);
      SumByConcat(AllLines(front), e.lines, Net());
      assert e in entries;
      MultiplesAdd(|front|, 1, perEntry);
      MultiplesAdd(|AllLines(front)|, |e.lines|, perLine);
    }
  }

  lemma MultiplesAdd(a: nat, b: nat, x: nat)
    ensures (a + b) * x == a * x + b * x
  {
  }

  lemma {:induction false} LinesHaveAccounts(b: Books, entries: seq<Entry>)
    requires Balanced(b) && forall e :: e in entries ==> e in b.entries
    ensures forall l :: l in AllLines(entries) ==> l.account in b.accounts
  {
    if |entries| > 0 {
      LinesHaveAccounts(b, entries[..|entries| - 1]);
      assert EntryBalanced(b, entries[|entries| - 1]);
    }
  }

  /** Manual entries, if any, have no more than four decimals. */
  ghost predicate FourDecimalSteps(steps: seq<Step>) {
    forall s :: s in steps && s.Manual? ==> FourDecimalLines(s.lines)
  }

  /** The sum of the balances of all accounts. */
  ghost function TotalBalance(b: Books): int {
    SumOver(b.accounts.Keys, BalanceIn(AllLines(b.entries)))
  }

  /**
   * After every run the balances of all accounts add up to within 0.0001 per entry and, for the
   * rounding of finer manual lines, per line; to within 0.0001 per entry when manual lines have no
   * more than four decimals; and to exactly zero when every entry was posted by a handler.
   */
  lemma TrialBalance(steps: seq<Step>)
    ensures var b := Run(steps);
            && Abs(TotalBalance(b)) <= |b.entries| * EPSILON + |AllLines(b.entries)| * COLUMN_STEP
            && (FourDecimalSteps(steps) ==> Abs(TotalBalance(b)) <= |b.entries| * EPSILON)
            && ((forall s :: s in steps ==> !s.Manual?) ==> TotalBalance(b) == 0)
  {
    RunIsBalanced(steps);
    assert forall e :: e in Run(steps).entries ==> EntryBalanced(Run(steps), e);
    TotalBalanceWithin(steps, EPSILON, COLUMN_STEP);
    if FourDecimalSteps(steps) {
      FourDecimalEntriesBalance(steps);
      TotalBalanceWithin(steps, EPSILON, 0);
    }
    if forall s :: s in steps ==> !s.Manual? {
      AutomaticEntriesBalance(steps);
      TotalBalanceWithin(steps, 0, 0);
    }
  }

  lemma TotalBalanceWithin(steps: seq<Step>, perEntry: nat, perLine: nat)
    requires forall e :: e in Run(steps).entries ==> Abs(Imbalance(e)) <= perEntry + |e.lines| * perLine
    ensures var b := Run(steps);
            Abs(TotalBalance(b)) <= |b.entries| * perEntry + |AllLines(b.entries)| * perLine
  {
    var b := Run(steps);
    RunIsBalanced(steps);
    LinesHaveAccounts(b, b.entries);
    BalancesCoverLines(b.accounts.Keys, AllLines(b.entries));
    LinesNetWithin(b.entries, perEntry, perLine);
  }

  lemma {:induction false} FourDecimalEntriesBalance(steps: seq<Step>)
    requires FourDecimalSteps(steps)
    ensures forall e :: e in Run(steps).entries ==> Abs(Imbalance(e)) <= EPSILON
  {
    if |steps| > 0 {
      var front, step := steps[..|steps| - 1], steps[|steps| - 1];
      assert step in steps && forall s :: s in front ==> s in steps;
      FourDecimalEntriesBalance(front);
      if step.Manual? {
        FourDecimalLinesAreStored(step.lines);
        NetIsDebitMinusCredit(step.lines);
      }
      if step.Deliver? && Run(steps).entries != Run(front).entries {
        PostingBalances(PostingOf(Run(front).documents, step.event).value);
      }
    }
  }

  lemma {:induction false} AutomaticEntriesBalance(steps: seq<Step>)
    requires forall s :: s in steps ==> !s.Manual?
    ensures forall e :: e in Run(steps).entries ==> Imbalance(e) == 0
  {
    if |steps| > 0 {
      var front, step := steps[..|steps| - 1], steps[|steps| - 1];
      assert step in steps;
      AutomaticEntriesBalance(front);
      if step.Deliver? && Run(steps).entries != Run(front).entries {
        PostingBalances(PostingOf(Run(front).documents, step.event).value);
      }
    }
  }

  /** The two lines of a posting, as given and as stored. */
  lemma PostingBalances(p: Posting)
    ensures SumBy(LinesOf(p), Debit()) == SumBy(LinesOf(p), Credit()) == p.amount
    ensures SumBy(StoredLines(LinesOf(p)), Net()) == 0
    ensures forall a :: SumBy(StoredLines(LinesOf(p)), OnAccount(a)) ==
                        (if p.debitAccount == a then Stored(p.amount) else 0)
                        - (if p.creditAccount == a then Stored(p.amount) else 0)
  {
    var d, c := Line(p.debitAccount, p.amount, 0), Line(p.creditAccount, 0, p.amount);
    var d', c' := Line(p.debitAccount, Stored(p.amount), 0), Line(p.creditAccount, 0, Stored(p.amount));
    assert StoredLines(LinesOf(p)) == [d', c'];
    SumByPair(d, c, Debit());
    SumByPair(d, c, Credit());
    SumByPair(d', c', Net());
    forall a
      ensures SumBy(StoredLines(LinesOf(p)), OnAccount(a)) == OnAccount(a)(d') + OnAccount(a)(c')
    {
      SumByPair(d', c', OnAccount(a));
    }
  }

  /** Five debits of 0.00005 against one credit of 0.00025 balance, and are stored 0.0002 apart. */
  lemma FineLinesUnbalanceTheLedger(b: Books, period: string, account: string)
    requires period in b.periods && !b.periods[period] && account in b.accounts
    ensures var half, credit := Line(account, 500_000, 0), Line(account, 0, 2_500_000);
            var after := AfterEntry(b, period, None, [half, half, half, half, half, credit]);
            && |after.entries| == |b.entries| + 1
            && Imbalance(after.entries[|b.entries|]) == 2_000_000 == 2 * EPSILON
  {
    var half, credit := Line(account, 500_000, 0), Line(account, 0, 2_500_000);
    var half', credit' := Line(account, 1_000_000, 0), Line(account, 0, 3_000_000);
    var lines := [half, half, half, half, half, credit];
    SixLines(half, credit, Debit());
    SixLines(half, credit, Credit());
    SixLines(half', credit', Net());
    assert StoredLines(lines) == [half', half', half', half', half', credit'];
  }

  lemma SixLines(x: Line, y: Line, f: Line -> int)
    ensures SumBy([x, x, x, x, x, y], f) == 5 * f(x) + f(y)
  {
    assert [x, x, x, x, x, y] == [x, x] + ([x, x] + [x, y]);
    SumByConcat([x, x], [x, x] + [x, y], f);
    SumByConcat([x, x], [x, y], f);
    SumByPair(x, x, f);
    SumByPair(x, y, f);
  }

  // ---------------------------------------------------------------------------------------
  // Closed periods

  function InPeriod(entries: seq<Entry>, period: string): seq<Entry> {
    if |entries| == 0 then [] else
    var front, e := InPeriod(entries[..|entries| - 1], period), entries[|entries| - 1];
    if e.period == period then front + [e] else front
  }

  function Falls(period: string): Entry -> bool {
    (e: Entry) => e.period == period
  }

  /** The entries of a period, all of them, in table order. */
  lemma {:induction false} InPeriodIsFiltered(entries: seq<Entry>, period: string)
    ensures IsFiltered(entries, Falls(period), InPeriod(entries, period))
  {
    if |entries| == 0 {
      NothingIsFiltered(Falls(period));
    } else {
      var front, last := entries[..|entries| - 1], entries[|entries| - 1];
      assert entries == front + [last];
      InPeriodIsFiltered(front, period);
      FilteredAppend(front, Falls(period), InPeriod(front, period), last);
    }
  }

  lemma StepKeepsClosedPeriod(b: Books, step: Step, period: string)
    requires period in b.periods && b.periods[period]
    ensures var after := Apply(b, step);
            && period in after.periods && after.periods[period]
            && InPeriod(after.entries, period) == InPeriod(b.entries, period)
  {
    var after := Apply(b, step);
    if after.entries != b.entries {
      assert after.entries[..|b.entries|] == b.entries;
    }
  }

  /** Whatever happens after a period is closed, its entries stay as they are. */
  lemma {:induction false} ClosedPeriodIsFrozen(steps: seq<Step>, n: nat, period: string)
    requires n <= |steps|
    requires period in Run(steps[..n]).periods && Run(steps[..n]).periods[period]
    ensures period in Run(steps).periods && Run(steps).periods[period]
    ensures InPeriod(Run(steps).entries, period) == InPeriod(Run(steps[..n]).entries, period)
    decreases |steps|
  {
    if n == |steps| {
      assert steps[..n] == steps;
    } else {
      var front := steps[..|steps| - 1];
      assert front[..n] == steps[..n];
      ClosedPeriodIsFrozen(front, n, period);
      StepKeepsClosedPeriod(Run(front), steps[|steps| - 1], period);
    }
  }

  // ---------------------------------------------------------------------------------------
  // Control accounts

  datatype Kind = ApInvoiceKind | ArInvoiceKind | ApPaymentKind | ArPaymentKind | PayrollKind

  function KindOf(d: Document): Kind {
    match d
    case ApInvoice(_) => ApInvoiceKind
    case ArInvoice(_) => ArInvoiceKind
    case ApPayment(_) => ApPaymentKind
    case ArPayment(_) => ArPaymentKind
    case PayrollRun(_) => PayrollKind
  }

  /** The amount of a document as far as it is positive; other amounts are never posted. */
  function AmountOf(d: Document): nat {
    var amount :=
      match d
      case ApInvoice(total) => total
      case ArInvoice(total) => total
      case ApPayment(amount) => amount
      case ArPayment(amount) => amount
      case PayrollRun(total) => if total.Some? then total.value else 0;
    if amount > 0 then amount else 0
  }

  function ModuleOf(k: Kind): string {
    match k
    case ApInvoiceKind => "AP"
    case ApPaymentKind => "AP"
    case ArInvoiceKind => "AR"
    case ArPaymentKind => "AR"
    case PayrollKind => "PAYROLL"
  }

  function DebitAccountOf(k: Kind): string {
    match k
    case ApInvoiceKind => "1300"
    case ArInvoiceKind => "1200"
    case ApPaymentKind => "2000"
    case ArPaymentKind => "1000"
    case PayrollKind => "6000"
  }

  function CreditAccountOf(k: Kind): string {
    match k
    case ApInvoiceKind => "2000"
    case ArInvoiceKind => "4000"
    case ApPaymentKind => "1000"
    case ArPaymentKind => "1200"
    case PayrollKind => "2100"
  }

  function SourceOf(id: string, d: Document): Source {
    Source(ModuleOf(KindOf(d)), id)
  }

  /** How the posting of a document moves an account. */
  function Effect(d: Document, account: string): int {
    (if DebitAccountOf(KindOf(d)) == account then AmountOf(d) else 0)
    - (if CreditAccountOf(KindOf(d)) == account then AmountOf(d) else 0)
  }

  ghost function EffectOn(documents: map<string, Document>, account: string): string -> int {
    (id: string) => if id in documents then Effect(documents[id], account) else 0
  }

  /** The event speaks of its own kind of document and carries the amount that the document stores. */
  ghost predicate WellFormed(documents: map<string, Document>, event: Event) {
    event.id in documents ==>
      var d := documents[event.id];
      match event
      case InvoiceApproved(_) => d.ApInvoice?
      case InvoiceIssued(_) => d.ArInvoice?
      case PaymentReceived(_, amount) => d.ArPayment? && (amount.Some? ==> Stored(amount.value) == d.amount)
      case PaymentMade(_, amount) => d.ApPayment? && (amount.Some? ==> Stored(amount.value) == d.amount)
      case PayrollCompleted(_) => d.PayrollRun?
  }

  /** The source of a manual entry imitates no automatic one. */
  predicate IsManual(source: Option<Source>) {
    source.Some? ==> source.value.moduleName !in {"AP", "AR", "PAYROLL"}
  }

  function ManualEntries(entries: seq<Entry>): seq<Entry> {
    if |entries| == 0 then [] else
    var front, e := ManualEntries(entries[..|entries| - 1]), entries[|entries| - 1];
    if IsManual(e.source) then front + [e] else front
  }

  /** What manual entries leave on an account. */
  ghost function ManualBalance(entries: seq<Entry>, account: string): int {
    Balance(ManualEntries(entries), account)
  }

  lemma ManualBalanceAppend(entries: seq<Entry>, e: Entry, account: string)
    ensures ManualBalance(entries + [e], account) ==
            ManualBalance(entries, account) + if IsManual(e.source) then SumBy(e.lines, OnAccount(account)) else 0
  {
    assert (entries + [e])[..|entries|] == entries;
    BalanceAppend(ManualEntries(entries), e, account);
  }

  ghost predicate Admissible(b: Books, step: Step) {
    && (step.AddDocument? ==> step.id !in b.documents)
    && (step.Deliver? ==> WellFormed(b.documents, step.event))
    && (step.Manual? ==> IsManual(step.source))
  }

  ghost predicate AdmissibleRun(steps: seq<Step>) {
    forall i :: 0 <= i < |steps| ==> Admissible(Run(steps[..i]), steps[i])
  }

  ghost predicate IsPosted(b: Books, id: string) {
    id in b.documents && HasSource(b.entries, SourceOf(id, b.documents[id]))
  }

  ghost function PostedIds(b: Books): set<string> {
    set id | id in b.documents && IsPosted(b, id)
  }

  ghost predicate Automatic(b: Books, e: Entry) {
    exists id :: id in b.documents && e.source == Some(SourceOf(id, b.documents[id]))
  }

  /** Entries are automatic or manual, none twice for a document, and accounts agree. */
  ghost predicate Agrees(b: Books) {
    && (forall e :: e in b.entries ==> Automatic(b, e) || IsManual(e.source))
    && (forall i, j :: 0 <= i < j < |b.entries| && Automatic(b, b.entries[i]) ==>
          b.entries[i].source != b.entries[j].source)
    && forall a ::
         Balance(b.entries, a) == SumOver(PostedIds(b), EffectOn(b.documents, a)) + ManualBalance(b.entries, a)
  }

  lemma PostingOfWellFormed(documents: map<string, Document>, event: Event)
    requires WellFormed(documents, event)
    ensures event.id in documents && AmountOf(documents[event.id]) > 0 ==> PostingOf(documents, event).Some?
    ensures PostingOf(documents, event).Some? ==>
              && event.id in documents
              && var p, d := PostingOf(documents, event).value, documents[event.id];
                 && p.source == SourceOf(event.id, d) && p.debitAccount == DebitAccountOf(KindOf(d))
                 && p.creditAccount == CreditAccountOf(KindOf(d)) && Stored(p.amount) == AmountOf(d)
  {
    var posting := PostingOf(documents, event);
    if posting.Some? {
      StoredIsNear(posting.value.amount);
    }
    if event.id in documents && (event.PaymentReceived? || event.PaymentMade?) && event.eventAmount.Some? {
      StoredIsNear(event.eventAmount.value);
    }
  }

  lemma HasSourceAppend(entries: seq<Entry>, e: Entry, source: Source)
    ensures HasSource(entries + [e], source) <==> HasSource(entries, source) || e.source == Some(source)
  {
    if HasSource(entries, source) {
      var i :| 0 <= i < |entries| && entries[i].source == Some(source);
      assert (entries + [e])[i].source == Some(source);
    }
    assert (entries + [e])[|entries|] == e;
  }

  lemma AddDocumentKeepsAgreement(b: Books, id: string, d: Document)
    requires Agrees(b) && id !in b.documents
    ensures Agrees(b.(documents := b.documents[id := d]))
  {
    var after := b.(documents := b.documents[id := d]);
    forall e | e in b.entries
      ensures e.source != Some(SourceOf(id, d)) && (Automatic(b, e) <==> Automatic(after, e))
    {
      if Automatic(b, e) {
        var x :| x in b.documents && e.source == Some(SourceOf(x, b.documents[x]));
        assert x in after.documents && after.documents[x] == b.documents[x];
      }
    }
    assert PostedIds(after) == PostedIds(b);
    forall a
      ensures SumOver(PostedIds(after), EffectOn(after.documents, a)) == SumOver(PostedIds(b), EffectOn(b.documents, a))
    {
      SumOverAgree(PostedIds(b), EffectOn(b.documents, a), EffectOn(after.documents, a));
    }
  }

  lemma ManualKeepsAgreement(b: Books, period: string, source: Option<Source>, lines: seq<Line>)
    requires Agrees(b) && IsManual(source)
    ensures Agrees(AfterEntry(b, period, source, lines))
  {
    var after := AfterEntry(b, period, source, lines);
    if after != b {
      var e := Entry(period, source, StoredLines(lines));
      forall id | id in b.documents
        ensures IsPosted(after, id) <==> IsPosted(b, id)
      {
        HasSourceAppend(b.entries, e, SourceOf(id, b.documents[id]));
      }
      assert PostedIds(after) == PostedIds(b);
      forall a
        ensures Balance(after.entries, a) - ManualBalance(after.entries, a) ==
                Balance(b.entries, a) - ManualBalance(b.entries, a)
      {
        BalanceAppend(b.entries, e, a);
        ManualBalanceAppend(b.entries, e, a);
      }
    }
  }

  /** The document of a delivery that posts was not posted before, and is the only one posted. */
  lemma DeliveryPostsOne(b: Books, event: Event, now: string)
    requires Agrees(b) && WellFormed(b.documents, event)
    requires AfterDelivery(b, event, now).entries != b.entries
    ensures event.id in b.documents && event.id !in PostedIds(b)
    ensures PostedIds(AfterDelivery(b, event, now)) == PostedIds(b) + {event.id}
    ensures var p := PostingOf(b.documents, event).value;
            AfterDelivery(b, event, now).entries == b.entries + [Entry(now, Some(p.source), StoredLines(LinesOf(p)))]
  {
    var after := AfterDelivery(b, event, now);
    PostingOfWellFormed(b.documents, event);
    var p := PostingOf(b.documents, event).value;
    var e := Entry(now, Some(p.source), StoredLines(LinesOf(p)));
    forall x | x in b.documents
      ensures IsPosted(after, x) <==> IsPosted(b, x) || x == event.id
    {
      HasSourceAppend(b.entries, e, SourceOf(x, b.documents[x]));
    }
  }

  /** It moves every account by the effect of that document. */
  lemma DeliveryMovesAccount(b: Books, event: Event, now: string, a: string)
    requires Agrees(b) && WellFormed(b.documents, event)
    requires AfterDelivery(b, event, now).entries != b.entries
    ensures var after := AfterDelivery(b, event, now);
            Balance(after.entries, a) ==
            SumOver(PostedIds(after), EffectOn(after.documents, a)) + ManualBalance(after.entries, a)
  {
    DeliveryPostsOne(b, event, now);
    PostingOfWellFormed(b.documents, event);
    var p := PostingOf(b.documents, event).value;
    var e := Entry(now, Some(p.source), StoredLines(LinesOf(p)));
    BalanceAppend(b.entries, e, a);
    ManualBalanceAppend(b.entries, e, a);
    PostingBalances(p);
    SumOverAdd(PostedIds(b), event.id, EffectOn(b.documents, a));
  }

  lemma DeliveryKeepsAgreement(b: Books, event: Event, now: string)
    requires Agrees(b) && WellFormed(b.documents, event)
    ensures Agrees(AfterDelivery(b, event, now))
  {
    var after := AfterDelivery(b, event, now);
    if after.entries != b.entries {
      DeliveryPostsOne(b, event, now);
      PostingOfWellFormed(b.documents, event);
      var p := PostingOf(b.documents, event).value;
      var e := Entry(now, Some(p.source), StoredLines(LinesOf(p)));
      assert forall x :: x in b.entries ==> x.source != e.source;
      assert forall x :: Automatic(after, x) <==> Automatic(b, x);
      forall a
        ensures Balance(after.entries, a) ==
                SumOver(PostedIds(after), EffectOn(after.documents, a)) + ManualBalance(after.entries, a)
      {
        DeliveryMovesAccount(b, event, now, a);
      }
    } else {
      assert PostedIds(after) == PostedIds(b);
    }
  }

  lemma StepKeepsAgreement(b: Books, step: Step)
    requires Agrees(b) && Admissible(b, step)
    ensures Agrees(Apply(b, step))
  {
    match step
    case AddDocument(id, d) => AddDocumentKeepsAgreement(b, id, d);
    case Manual(period, source, lines) => ManualKeepsAgreement(b, period, source, lines);
    case Deliver(event, now) => DeliveryKeepsAgreement(b, event, now);
    case OpenPeriod(p) => SameEntriesAgree(b, Apply(b, step));
    case ClosePeriod(p) => SameEntriesAgree(b, Apply(b, step));
    case AddAccount(code, kind) => SameEntriesAgree(b, Apply(b, step));
  }

  lemma SameEntriesAgree(b: Books, after: Books)
    requires Agrees(b) && after.entries == b.entries && after.documents == b.documents
    ensures Agrees(after)
  {
    assert PostedIds(after) == PostedIds(b);
  }

  lemma {:induction false} RunAgrees(steps: seq<Step>)
    requires AdmissibleRun(steps)
    ensures Agrees(Run(steps))
  {
    if |steps| == 0 {
      assert PostedIds(Run([])) == {};
    } else {
      var front := steps[..|steps| - 1];
      AdmissiblePrefix(steps);
      RunAgrees(front);
      StepKeepsAgreement(Run(front), steps[|steps| - 1]);
    }
  }

  /** A delivery for the document asked for a posting while the current period was open. */
  ghost predicate DeliveredOpen(steps: seq<Step>, id: string, i: int) {
    && 0 <= i < |steps|
    && steps[i].Deliver? && steps[i].event.id == id
    && var b := Run(steps[..i]);
       PostingOf(b.documents, steps[i].event).Some? && (steps[i].now in b.periods ==> !b.periods[steps[i].now])
  }

  lemma DeliveryPosts(b: Books, event: Event, now: string)
    requires WellFormed(b.documents, event) && PostingOf(b.documents, event).Some?
    requires now in b.periods ==> !b.periods[now]
    ensures event.id in b.documents && IsPosted(AfterDelivery(b, event, now), event.id)
  {
    PostingOfWellFormed(b.documents, event);
    var p := PostingOf(b.documents, event).value;
    PostingBalances(p);
    if !HasSource(b.entries, p.source) {
      var after := AfterDelivery(b, event, now);
      assert after.entries == b.entries + [Entry(now, Some(p.source), StoredLines(LinesOf(p)))];
      HasSourceAppend(b.entries, after.entries[|b.entries|], p.source);
    }
  }

  lemma StepKeepsPosted(b: Books, step: Step, id: string)
    requires IsPosted(b, id) && Admissible(b, step)
    ensures IsPosted(Apply(b, step), id) && Apply(b, step).documents[id] == b.documents[id]
  {
    var after := Apply(b, step);
    if after.entries != b.entries {
      HasSourceAppend(b.entries, after.entries[|b.entries|], SourceOf(id, b.documents[id]));
      assert after.entries == b.entries + [after.entries[|b.entries|]];
    }
  }

  lemma AdmissiblePrefix(steps: seq<Step>)
    requires AdmissibleRun(steps) && |steps| > 0
    ensures AdmissibleRun(steps[..|steps| - 1])
  {
    var front := steps[..|steps| - 1];
    assert forall k :: 0 <= k < |front| ==> front[..k] == steps[..k];
  }

  /** What is posted stays posted, and documents never change. */
  lemma {:induction false} PostedPersists(steps: seq<Step>, n: nat, id: string)
    requires AdmissibleRun(steps) && n <= |steps| && IsPosted(Run(steps[..n]), id)
    ensures IsPosted(Run(steps), id)
    decreases |steps|
  {
    if n == |steps| {
      assert steps[..n] == steps;
    } else {
      var front := steps[..|steps| - 1];
      AdmissiblePrefix(steps);
      assert front[..n] == steps[..n];
      PostedPersists(front, n, id);
      StepKeepsPosted(Run(front), steps[|steps| - 1], id);
    }
  }

  lemma StepPosts(b: Books, step: Step)
    requires step.Deliver? && Admissible(b, step) && PostingOf(b.documents, step.event).Some?
    requires step.now in b.periods ==> !b.periods[step.now]
    ensures IsPosted(Apply(b, step), step.event.id)
  {
    DeliveryPosts(b, step.event, step.now);
  }

  /** A document once delivered into an open period is posted for good. */
  lemma DeliveredIsPosted(steps: seq<Step>, id: string, i: nat)
    requires AdmissibleRun(steps) && DeliveredOpen(steps, id, i)
    ensures IsPosted(Run(steps), id)
  {
    RunStep(steps, i);
    StepPosts(Run(steps[..i]), steps[i]);
    PostedPersists(steps, i + 1, id);
  }

  lemma RunStep(steps: seq<Step>, i: nat)
    requires i < |steps|
    ensures Run(steps[..i + 1]) == Apply(Run(steps[..i]), steps[i])
  {
    assert steps[..i + 1][..i] == steps[..i];
  }

  /** The document's event was delivered at least once into an open period. */
  ghost predicate Delivered(steps: seq<Step>, id: string) {
    exists i :: DeliveredOpen(steps, id, i)
  }

  lemma DeliveredStays(steps: seq<Step>, id: string)
    requires |steps| > 0 && Delivered(steps[..|steps| - 1], id)
    ensures Delivered(steps, id)
  {
    var front := steps[..|steps| - 1];
    var i :| DeliveredOpen(front, id, i);
    assert front[..i] == steps[..i];
    assert DeliveredOpen(steps, id, i);
  }

  /** Only a delivery into an open period can post a document. */
  lemma PostingNeedsDelivery(b: Books, step: Step, id: string)
    requires Agrees(b) && Admissible(b, step)
    requires IsPosted(Apply(b, step), id) && !IsPosted(b, id)
    ensures step.Deliver? && step.event.id == id && PostingOf(b.documents, step.event).Some?
    ensures step.now in b.periods ==> !b.periods[step.now]
  {
    var after := Apply(b, step);
    var source := SourceOf(id, after.documents[id]);
    assert after.entries != b.entries;
    var e := after.entries[|b.entries|];
    HasSourceAppend(b.entries, e, source);
    assert after.entries == b.entries + [e];
    if step.Deliver? {
      PostingOfWellFormed(b.documents, step.event);
    }
  }

  /** The converse of DeliveredIsPosted: what is posted was delivered. */
  lemma {:induction false} PostedWasDelivered(steps: seq<Step>, id: string)
    requires AdmissibleRun(steps) && IsPosted(Run(steps), id)
    ensures Delivered(steps, id)
    decreases |steps|
  {
    if |steps| > 0 {
      var n := |steps| - 1;
      AdmissiblePrefix(steps);
      if IsPosted(Run(steps[..n]), id) {
        PostedWasDelivered(steps[..n], id);
        DeliveredStays(steps, id);
      } else {
        RunAgrees(steps[..n]);
        PostingNeedsDelivery(Run(steps[..n]), steps[n], id);
        assert DeliveredOpen(steps, id, n);
      }
    }
  }

  /** A document is posted exactly when it was delivered into an open period. */
  lemma PostedIffDelivered(steps: seq<Step>, id: string)
    requires AdmissibleRun(steps)
    ensures IsPosted(Run(steps), id) <==> Delivered(steps, id)
  {
    if IsPosted(Run(steps), id) {
      PostedWasDelivered(steps, id);
    }
    if Delivered(steps, id) {
      var i :| DeliveredOpen(steps, id, i);
      DeliveredIsPosted(steps, id, i);
    }
  }

  /** How many entries were posted for a document. */
  ghost function EntriesFor(source: Source): Entry -> int {
    (e: Entry) => if e.source == Some(source) then 1 else 0
  }

  lemma {:induction false} CountIsOne(entries: seq<Entry>, source: Source)
    requires forall i, j :: 0 <= i < j < |entries| ==>
               !(entries[i].source == entries[j].source == Some(source))
    ensures SumBy(entries, EntriesFor(source)) == if HasSource(entries, source) then 1 else 0
  {
    if |entries| > 0 {
      var front, e := entries[..|entries| - 1], entries[|entries| - 1];
      CountIsOne(front, source);
      assert entries == front + [e];
      HasSourceAppend(front, e, source);
    }
  }

  /** Amounts of one kind of document. */
  ghost function OfKind(documents: map<string, Document>, k: Kind): string -> int {
    (id: string) => if id in documents && KindOf(documents[id]) == k then AmountOf(documents[id]) else 0
  }

  ghost function DeliveredIds(steps: seq<Step>): set<string> {
    set id | id in Run(steps).documents && Delivered(steps, id)
  }

  /** The amounts of one kind that reached the ledger. */
  ghost function DeliveredTotal(steps: seq<Step>, k: Kind): int {
    SumOver(DeliveredIds(steps), OfKind(Run(steps).documents, k))
  }

  lemma {:induction false} DifferenceOfSums(s: set<string>, f: string -> int, g: string -> int, h: string -> int)
    requires forall x :: x in s ==> f(x) == g(x) - h(x)
    ensures SumOver(s, f) == SumOver(s, g) - SumOver(s, h)
    decreases |s|
  {
    if s != {} {
      var x :| x in s;
      SumOverRemove(s, x, f);
      SumOverRemove(s, x, g);
      SumOverRemove(s, x, h);
      DifferenceOfSums(s - {x}, f, g, h);
    }
  }

  lemma DocumentSurvives(b: Books, step: Step, id: string)
    requires id in b.documents && Admissible(b, step)
    ensures id in Apply(b, step).documents && Apply(b, step).documents[id] == b.documents[id]
  {
  }

  lemma {:induction false} DocumentsSurvive(steps: seq<Step>, i: nat, id: string)
    requires AdmissibleRun(steps) && i <= |steps| && id in Run(steps[..i]).documents
    ensures id in Run(steps).documents && Run(steps).documents[id] == Run(steps[..i]).documents[id]
    decreases |steps|
  {
    if i == |steps| {
      assert steps[..i] == steps;
    } else {
      var front := steps[..|steps| - 1];
      AdmissiblePrefix(steps);
      assert front[..i] == steps[..i];
      DocumentsSurvive(front, i, id);
      DocumentSurvives(Run(front), steps[|steps| - 1], id);
    }
  }

  /**
   * In any order and with any duplication: a document has exactly one entry when its event was ever
   * delivered into an open period, and none otherwise.
   */
  lemma EntriesForEach(steps: seq<Step>, id: string)
    requires AdmissibleRun(steps) && id in Run(steps).documents
    ensures SumBy(Run(steps).entries, EntriesFor(SourceOf(id, Run(steps).documents[id]))) ==
            if Delivered(steps, id) then 1 else 0
  {
    var b := Run(steps);
    var source := SourceOf(id, b.documents[id]);
    RunAgrees(steps);
    PostedIffDelivered(steps, id);
    forall i, j | 0 <= i < j < |b.entries|
      ensures !(b.entries[i].source == b.entries[j].source == Some(source))
    {
      assert b.entries[i] in b.entries;
      if b.entries[i].source == Some(source) {
        assert Automatic(b, b.entries[i]);
      }
    }
    CountIsOne(b.entries, source);
  }

  /** Every account holds the effect of every delivered document, what manual entries left, and no more. */
  lemma BalanceCoversDeliveries(steps: seq<Step>, account: string)
    requires AdmissibleRun(steps)
    ensures var b := Run(steps);
            Balance(b.entries, account) ==
            SumOver(DeliveredIds(steps), EffectOn(b.documents, account)) + ManualBalance(b.entries, account)
  {
    var b := Run(steps);
    RunAgrees(steps);
    forall id | id in b.documents
      ensures id in PostedIds(b) <==> id in DeliveredIds(steps)
    {
      PostedIffDelivered(steps, id);
    }
    assert PostedIds(b) == DeliveredIds(steps);
  }

  lemma AccountIsDifference(steps: seq<Step>, account: string, plus: Kind, minus: Kind)
    requires AdmissibleRun(steps) && plus != minus
    requires forall k :: DebitAccountOf(k) == account <==> k == plus
    requires forall k :: CreditAccountOf(k) == account <==> k == minus
    ensures Balance(Run(steps).entries, account) ==
            DeliveredTotal(steps, plus) - DeliveredTotal(steps, minus) + ManualBalance(Run(steps).entries, account)
  {
    BalanceCoversDeliveries(steps, account);
    var docs := Run(steps).documents;
    DifferenceOfSums(DeliveredIds(steps), EffectOn(docs, account), OfKind(docs, plus), OfKind(docs, minus));
  }

  lemma AccountIsSum(steps: seq<Step>, account: string, plus: Kind)
    requires AdmissibleRun(steps)
    requires forall k :: DebitAccountOf(k) == account <==> k == plus
    requires forall k :: CreditAccountOf(k) != account
    ensures Balance(Run(steps).entries, account) ==
            DeliveredTotal(steps, plus) + ManualBalance(Run(steps).entries, account)
  {
    BalanceCoversDeliveries(steps, account);
    var docs := Run(steps).documents;
    SumOverAgree(DeliveredIds(steps), EffectOn(docs, account), OfKind(docs, plus));
  }

  /** What deliveries, and not manual entries, left on an account. */
  ghost function AutomaticBalance(steps: seq<Step>, account: string): int {
    Balance(Run(steps).entries, account) - ManualBalance(Run(steps).entries, account)
  }

  lemma Cash(steps: seq<Step>)
    requires AdmissibleRun(steps)
    ensures AutomaticBalance(steps, "1000") ==
            DeliveredTotal(steps, ArPaymentKind) - DeliveredTotal(steps, ApPaymentKind)
  {
    AccountIsDifference(steps, "1000", ArPaymentKind, ApPaymentKind);
  }

  lemma AccountsReceivable(steps: seq<Step>)
    requires AdmissibleRun(steps)
    ensures AutomaticBalance(steps, "1200") ==
            DeliveredTotal(steps, ArInvoiceKind) - DeliveredTotal(steps, ArPaymentKind)
  {
    AccountIsDifference(steps, "1200", ArInvoiceKind, ArPaymentKind);
  }

  lemma InventoryAccount(steps: seq<Step>)
    requires AdmissibleRun(steps)
    ensures AutomaticBalance(steps, "1300") == DeliveredTotal(steps, ApInvoiceKind)
  {
    AccountIsSum(steps, "1300", ApInvoiceKind);
  }

  lemma AccountsPayable(steps: seq<Step>)
    requires AdmissibleRun(steps)
    ensures AutomaticBalance(steps, "2000") ==
            DeliveredTotal(steps, ApPaymentKind) - DeliveredTotal(steps, ApInvoiceKind)
  {
    AccountIsDifference(steps, "2000", ApPaymentKind, ApInvoiceKind);
  }

  /** At every point of every run the control accounts are what was delivered, apart from manual entries. */
  lemma ControlAccountsMatchDeliveries(steps: seq<Step>)
    requires AdmissibleRun(steps)
    ensures AutomaticBalance(steps, "1000") ==
            DeliveredTotal(steps, ArPaymentKind) - DeliveredTotal(steps, ApPaymentKind)
    ensures AutomaticBalance(steps, "1200") ==
            DeliveredTotal(steps, ArInvoiceKind) - DeliveredTotal(steps, ArPaymentKind)
    ensures AutomaticBalance(steps, "1300") == DeliveredTotal(steps, ApInvoiceKind)
    ensures AutomaticBalance(steps, "2000") ==
            DeliveredTotal(steps, ApPaymentKind) - DeliveredTotal(steps, ApInvoiceKind)
  {
    Cash(steps);
    AccountsReceivable(steps);
    InventoryAccount(steps);
    AccountsPayable(steps);
  }

  /** A redelivered event changes nothing once its document is posted. */
  lemma RedeliveryChangesNothing(b: Books, event: Event, now: string)
    requires WellFormed(b.documents, event) && IsPosted(b, event.id)
    ensures AfterDelivery(b, event, now) == b
  {
    PostingOfWellFormed(b.documents, event);
  }
}
