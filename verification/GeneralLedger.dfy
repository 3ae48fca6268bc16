/**
 * The general ledger: manual entries, the five event handlers that post on their own, account
 * balances and period locks. Amounts are integers in units of 0.0000000001, fine enough to
 * hold a quantity times a unit price; an account is identified by its code. The balance check sees
 * the lines as they were given, the tables hold them with four decimals.
 */
module GeneralLedger {
  import opened Prelude

  datatype AccountType = Asset | Liability | Equity | Revenue | Expense

  datatype Line = Line(account: string, debit: int, credit: int)

  /** What an entry was posted for: a module name and the id of the originating record. */
  datatype Source = Source(moduleName: string, id: string)

  datatype Entry = Entry(period: string, source: Option<Source>, lines: seq<Line>)

  /** The records that events refer to; ids are unique across all of them. */
  datatype Document =
    | ApInvoice(total: Money)
    | ArInvoice(total: Money)
    | ApPayment(amount: Money)
    | ArPayment(amount: Money)
    | PayrollRun(totalNetPay: Option<Money>)

  /** `periods` maps a period name to whether it is locked. */
  datatype Books = Books(
    documents: map<string, Document>, periods: map<string, bool>,
    accounts: map<string, AccountType>, entries: seq<Entry>)

  datatype Event =
    | InvoiceApproved(id: string)
    | InvoiceIssued(id: string)
    | PaymentReceived(id: string, eventAmount: Option<int>)
    | PaymentMade(id: string, eventAmount: Option<int>)
    | PayrollCompleted(id: string)

  datatype Outcome = Posted | PeriodNotFound | PeriodLocked | Unbalanced | UnknownAccount

  const EPSILON: int := 1_000_000  // 0.0001

  const STANDARD_ACCOUNTS: map<string, AccountType> := map[
    "1000" := Asset, "1200" := Asset, "1300" := Asset, "2000" := Liability,
    "2100" := Liability, "4000" := Revenue, "6000" := Expense]

  function Debit(): Line -> int {
    (l: Line) => l.debit
  }

  function Credit(): Line -> int {
    (l: Line) => l.credit
  }

  /** Journal lines as their rows hold them. */
  function StoredLines(lines: seq<Line>): seq<Line> {
    seq(|lines|, i requires 0 <= i < |lines| => Line(lines[i].account, Stored(lines[i].debit), Stored(lines[i].credit)))
  }

  ghost predicate HasSource(entries: seq<Entry>, source: Source) {
    exists i :: 0 <= i < |entries| && entries[i].source == Some(source)
  }

  // ---------------------------------------------------------------------------------------
  // Steps

  /** The entry is added when its period exists and is open, its accounts exist and it balances. */
  ghost function AfterEntry(b: Books, period: string, source: Option<Source>, lines: seq<Line>): Books {
    if && period in b.periods && !b.periods[period]
       && Abs(SumBy(lines, Debit()) - SumBy(lines, Credit())) <= EPSILON
       && (forall l :: l in lines ==> l.account in b.accounts)
    then b.(entries := b.entries + [Entry(period, source, StoredLines(lines))])
    else b
  }

  datatype Posting = Posting(source: Source, debitAccount: string, creditAccount: string, amount: int)

  /** The amount that a payment event carries, or else the payment's own. */
  function AmountFrom(eventAmount: Option<int>, amount: int): int {
    if eventAmount.Some? then eventAmount.value else amount
  }

  /** What an event asks the ledger to post, if anything. */
  function PostingOf(documents: map<string, Document>, event: Event): Option<Posting> {
    if event.id !in documents then None
    else
      var doc := documents[event.id];
      var posting :=
        match event
        case InvoiceApproved(id) =>
          if doc.ApInvoice? || doc.ArInvoice? then Some(Posting(Source("AP", id), "1300", "2000", doc.total)) else None
        case InvoiceIssued(id) =>
          if doc.ArInvoice? then Some(Posting(Source("AR", id), "1200", "4000", doc.total)) else None
        case PaymentReceived(id, eventAmount) =>
          if !doc.ApPayment? && !doc.ArPayment? then None
          else Some(Posting(Source("AR", id), "1000", "1200", AmountFrom(eventAmount, doc.amount)))
        case PaymentMade(id, eventAmount) =>
          if !doc.ApPayment? && !doc.ArPayment? then None
          else Some(Posting(Source("AP", id), "2000", "1000", AmountFrom(eventAmount, doc.amount)))
        case PayrollCompleted(id) =>
          if doc.PayrollRun? && doc.totalNetPay.Some?
          then Some(Posting(Source("PAYROLL", id), "6000", "2100", doc.totalNetPay.value)) else None;
      if posting.Some? && posting.value.amount <= 0 then None else posting
  }

  function LinesOf(p: Posting): seq<Line> {
    [Line(p.debitAccount, p.amount, 0), Line(p.creditAccount, 0, p.amount)]
  }

  /** The current period and the two accounts exist once a handler gets as far as posting. */
  ghost function Prepared(b: Books, p: Posting, now: string): Books {
    b.(periods := if now in b.periods then b.periods else b.periods[now := false],
       accounts := Ensured(Ensured(b.accounts, p.debitAccount), p.creditAccount))
  }

  function Ensured(accounts: map<string, AccountType>, code: string): map<string, AccountType> {
    if code in accounts || code !in STANDARD_ACCOUNTS then accounts
    else accounts[code := STANDARD_ACCOUNTS[code]]
  }

  /** One delivery of an event while `now` is the current period. */
  ghost function AfterDelivery(b: Books, event: Event, now: string): Books {
    var posting := PostingOf(b.documents, event);
    if posting.None? || HasSource(b.entries, posting.value.source) then b
    else
      AfterEntry(Prepared(b, posting.value, now), now, Some(posting.value.source), LinesOf(posting.value))
  }

  /** The two rows of an automatic entry: the amount once on either side. */
  ghost predicate IsEntryOf(p: Posting, now: string, e: Entry) {
    && e.period == now && e.source == Some(p.source) && |e.lines| == 2
    && e.lines[0].account == p.debitAccount && e.lines[0].debit == Stored(p.amount) && e.lines[0].credit == 0
    && e.lines[1].account == p.creditAccount && e.lines[1].debit == 0 && e.lines[1].credit == Stored(p.amount)
  }

  /** A payment event's own amount wins over the payment's, and only positive amounts are posted. */
  lemma PostedAmount(documents: map<string, Document>, event: Event)
    requires PostingOf(documents, event).Some?
    ensures var p := PostingOf(documents, event).value;
            && p.amount > 0
            && p.debitAccount in STANDARD_ACCOUNTS && p.creditAccount in STANDARD_ACCOUNTS
            && (event.PaymentReceived? || event.PaymentMade? ==>
                  p.amount == if event.eventAmount.Some? then event.eventAmount.value else documents[event.id].amount)
  {
  }

  /** What preparing a posting leaves behind: an open period and both accounts, nothing else changed. */
  ghost predicate Prepares(b: Books, p: Posting, now: string, after: Books) {
    && after.periods == (if now in b.periods then b.periods else b.periods[now := false])
    && p.debitAccount in after.accounts && p.creditAccount in after.accounts
    && (forall a :: a in b.accounts ==> a in after.accounts && after.accounts[a] == b.accounts[a])
    && (forall a :: a in after.accounts && a !in b.accounts ==>
          a in {p.debitAccount, p.creditAccount} && a in STANDARD_ACCOUNTS
          && after.accounts[a] == STANDARD_ACCOUNTS[a])
  }

  lemma PreparedIs(b: Books, p: Posting, now: string)
    requires p.debitAccount in STANDARD_ACCOUNTS && p.creditAccount in STANDARD_ACCOUNTS
    ensures Prepares(b, p, now, Prepared(b, p, now))
  {
  }

  lemma LinesOfBalance(p: Posting)
    ensures SumBy(LinesOf(p), Debit()) == p.amount == SumBy(LinesOf(p), Credit())
  {
    SumByPair(LinesOf(p)[0], LinesOf(p)[1], Debit());
    SumByPair(LinesOf(p)[0], LinesOf(p)[1], Credit());
  }

  /** A delivery adds its entry exactly when it asks for one, is new and finds its period open. */
  lemma DeliveryMeaning(b: Books, event: Event, now: string)
    requires PostingOf(b.documents, event).Some?
    ensures var p, after := PostingOf(b.documents, event).value, AfterDelivery(b, event, now);
            if HasSource(b.entries, p.source) then after == b
            else
              && Prepares(b, p, now, after)
              && if now in b.periods && b.periods[now] then after.entries == b.entries
                 else
                   && |after.entries| == |b.entries| + 1 && after.entries[..|b.entries|] == b.entries
                   && IsEntryOf(p, now, after.entries[|b.entries|])
  {
    var p := PostingOf(b.documents, event).value;
    PostedAmount(b.documents, event);
    PreparedIs(b, p, now);
    LinesOfBalance(p);
  }

  class JournalEntryService {
    var documents: map<string, Document>
    var periods: map<string, bool>
    var accounts: map<string, AccountType>
    var entries: seq<Entry>

    ghost function View(): Books
      reads this
    {
      Books(documents, periods, accounts, entries)
    }

    constructor ()
      ensures View() == Books(map[], map[], map[], [])
    {
      documents, periods, accounts, entries := map[], map[], map[], [];
    }

    method CloseFiscalPeriod(period: string) returns (found: bool)
      modifies `periods
      ensures found <==> period in old(periods)
      ensures periods == if found then old(periods)[period := true] else old(periods)
    {
      found := period in periods;
      if found {
        periods := periods[period := true];
      }
    }

    method CreateJournalEntry(period: string, source: Option<Source>, lines: seq<Line>) returns (outcome: Outcome)
      modifies `entries
      ensures View() == AfterEntry(old(View()), period, source, lines)
      ensures outcome ==
              if period !in periods then PeriodNotFound
              else if periods[period] then PeriodLocked
              else if Abs(SumBy(lines, Debit()) - SumBy(lines, Credit())) > EPSILON then Unbalanced
              else if exists l :: l in lines && l.account !in accounts then UnknownAccount
              else Posted
      ensures outcome == Posted <==> entries == old(entries) + [Entry(period, source, StoredLines(lines))]
      ensures outcome != Posted ==> entries == old(entries)
      ensures outcome == Posted ==>
                var rows := entries[|old(entries)|].lines;
                && |rows| == |lines|
                && forall i :: 0 <= i < |lines| ==>
                     && rows[i].account == lines[i].account
                     && rows[i].debit == Stored(lines[i].debit) && rows[i].credit == Stored(lines[i].credit)
    {
      if period !in periods {
        return PeriodNotFound;
      }
      if periods[period] {
        return PeriodLocked;
      }
      var totalDebit, totalCredit := 0, 0;
      for i := 0 to |lines|
        invariant totalDebit == SumBy(lines[..i], Debit())
        invariant totalCredit == SumBy(lines[..i], Credit())
      {
        assert lines[..i + 1][..i] == lines[..i];
        totalDebit := totalDebit + lines[i].debit;
        totalCredit := totalCredit + lines[i].credit;
      }
      assert lines[..|lines|] == lines;
      if Abs(totalDebit - totalCredit) > EPSILON {
        return Unbalanced;
      }
      if exists l :: l in lines && l.account !in accounts {
        return UnknownAccount;
      }
      entries := entries + [Entry(period, source, StoredLines(lines))];
      return Posted;
    }

    method GetOrCreateCurrentFiscalPeriod(now: string)
      modifies `periods
      ensures periods == if now in old(periods) then old(periods) else old(periods)[now := false]
    {
      if now !in periods {
        periods := periods[now := false];
      }
    }

    /** Uses the account if it exists and creates it with its standard type otherwise. */
    method EnsureStandardAccount(code: string)
      requires code in STANDARD_ACCOUNTS
      modifies `accounts
      ensures accounts == Ensured(old(accounts), code)
      ensures accounts == if code in old(accounts) then old(accounts)
                          else old(accounts)[code := STANDARD_ACCOUNTS[code]]
    {
      if code !in accounts {
        accounts := accounts[code := STANDARD_ACCOUNTS[code]];
      }
    }

    method FindSource(source: Source) returns (found: bool)
      ensures found <==> HasSource(entries, source)
    {
      for i := 0 to |entries|
        invariant forall k :: 0 <= k < i ==> entries[k].source != Some(source)
      {
        if entries[i].source == Some(source) {
          return true;
        }
      }
      return false;
    }

    /** Shared by the handlers; a refused entry is logged and dropped. */
    method PostGlEntry(source: Source, debitAccount: string, creditAccount: string, amount: int, now: string)
      requires debitAccount in STANDARD_ACCOUNTS && creditAccount in STANDARD_ACCOUNTS
      modifies `periods, `accounts, `entries
      ensures View() == var p := Posting(source, debitAccount, creditAccount, amount);
                        AfterEntry(Prepared(old(View()), p, now), now, Some(source), LinesOf(p))
    {
      GetOrCreateCurrentFiscalPeriod(now);
      EnsureStandardAccount(debitAccount);
      EnsureStandardAccount(creditAccount);
      var _ := CreateJournalEntry(now, Some(source), [Line(debitAccount, amount, 0), Line(creditAccount, 0, amount)]);
    }

    method HandleInvoiceApproved(id: string, now: string)
      modifies `periods, `accounts, `entries
      ensures View() == AfterDelivery(old(View()), InvoiceApproved(id), now)
    {
      if id !in documents || !(documents[id].ApInvoice? || documents[id].ArInvoice?) {
        return;
      }
      var amount := documents[id].total;
      if amount <= 0 {
        return;
      }
      var duplicate := FindSource(Source("AP", id));
      if duplicate {
        return;
      }
      PostGlEntry(Source("AP", id), "1300", "2000", amount, now);
    }

    method HandleInvoiceIssued(id: string, now: string)
      modifies `periods, `accounts, `entries
      ensures View() == AfterDelivery(old(View()), InvoiceIssued(id), now)
    {
      if id !in documents || !documents[id].ArInvoice? {
        return;
      }
      var amount := documents[id].total;
      if amount <= 0 {
        return;
      }
      var duplicate := FindSource(Source("AR", id));
      if duplicate {
        return;
      }
      PostGlEntry(Source("AR", id), "1200", "4000", amount, now);
    }

    method HandlePayrollCompleted(id: string, now: string)
      modifies `periods, `accounts, `entries
      ensures View() == AfterDelivery(old(View()), PayrollCompleted(id), now)
    {
      if id !in documents || !documents[id].PayrollRun? || documents[id].totalNetPay.None? {
        return;
      }
      var amount := documents[id].totalNetPay.value;
      if amount <= 0 {
        return;
      }
      var duplicate := FindSource(Source("PAYROLL", id));
      if duplicate {
        return;
      }
      PostGlEntry(Source("PAYROLL", id), "6000", "2100", amount, now);
    }

    method HandlePaymentReceived(id: string, eventAmount: Option<int>, now: string)
      modifies `periods, `accounts, `entries
      ensures View() == AfterDelivery(old(View()), PaymentReceived(id, eventAmount), now)
    {
      if id !in documents || !(documents[id].ApPayment? || documents[id].ArPayment?) {
        return;
      }
      var amount := AmountFrom(eventAmount, documents[id].amount);
      if amount <= 0 {
        return;
      }
      var duplicate := FindSource(Source("AR", id));
      if duplicate {
        return;
      }
      PostGlEntry(Source("AR", id), "1000", "1200", amount, now);
    }

    method HandlePaymentMade(id: string, eventAmount: Option<int>, now: string)
      modifies `periods, `accounts, `entries
      ensures View() == AfterDelivery(old(View()), PaymentMade(id, eventAmount), now)
    {
      if id !in documents || !(documents[id].ApPayment? || documents[id].ArPayment?) {
        return;
      }
      var amount := AmountFrom(eventAmount, documents[id].amount);
      if amount <= 0 {
        return;
      }
      var duplicate := FindSource(Source("AP", id));
      if duplicate {
        return;
      }
      PostGlEntry(Source("AP", id), "2000", "1000", amount, now);
    }
  }

  // ---------------------------------------------------------------------------------------
  // Balances

  /** All journal lines, entry by entry. */
  function AllLines(entries: seq<Entry>): seq<Line> {
    if |entries| == 0 then [] else AllLines(entries[..|entries| - 1]) + entries[|entries| - 1].lines
  }

  function OnAccount(account: string): Line -> int {
    (l: Line) => if l.account == account then l.debit - l.credit else 0
  }

  /** Debits minus credits of one account, folded over every line. */
  function Balance(entries: seq<Entry>, account: string): int {
    SumBy(AllLines(entries), OnAccount(account))
  }

  datatype Sums = Sums(debit: int, credit: int)

  /** The grouped query: one row of debit and credit sums per account that has lines. */
  function GroupByAccount(lines: seq<Line>): map<string, Sums> {
    if |lines| == 0 then map[] else
    var groups, l := GroupByAccount(lines[..|lines| - 1]), lines[|lines| - 1];
    var sums := if l.account in groups then groups[l.account] else Sums(0, 0);
    groups[l.account := Sums(sums.debit + l.debit, sums.credit + l.credit)]
  }

  function GetAccountBalances(accounts: set<string>, entries: seq<Entry>): map<string, int> {
    var groups := GroupByAccount(AllLines(entries));
    map a | a in accounts :: if a in groups then groups[a].debit - groups[a].credit else 0
  }

  lemma {:induction false} GroupsAreFolds(lines: seq<Line>, account: string)
    ensures var groups := GroupByAccount(lines);
            SumBy(lines, OnAccount(account)) ==
            if account in groups then groups[account].debit - groups[account].credit else 0
  {
    if |lines| > 0 {
      GroupsAreFolds(lines[..|lines| - 1], account);
    }
  }

  /** The grouped balances are the plain fold over the lines, account by account. */
  lemma BalancesAreFolds(accounts: set<string>, entries: seq<Entry>)
    ensures GetAccountBalances(accounts, entries).Keys == accounts
    ensures forall a :: a in accounts ==> GetAccountBalances(accounts, entries)[a] == Balance(entries, a)
  {
    forall a | a in accounts
      ensures GetAccountBalances(accounts, entries)[a] == Balance(entries, a)
    {
      GroupsAreFolds(AllLines(entries), a);
    }
  }

  lemma BalanceAppend(entries: seq<Entry>, e: Entry, account: string)
    ensures Balance(entries + [e], account) == Balance(entries, account) + SumBy(e.lines, OnAccount(account))
  {
    assert (entries + [e])[..|entries|] == entries;
    SumByConcat(AllLines(entries), e.lines, OnAccount(account));
  }
}
