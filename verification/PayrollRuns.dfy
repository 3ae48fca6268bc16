/**
 * The payroll worker: it clears what an earlier attempt left behind, walks the employees in
 * chunks, inserts the payslips of each chunk and finally completes the run. An attempt may stop
 * anywhere; the queue then starts a new one from the first employee.
 */
module PayrollRuns {
  import opened Prelude
  import opened Selections
  import opened PayrollMath

  /** `salaries` are those of the contracts in force, newest contract first. */
  datatype Employee = Employee(id: string, salaries: seq<real>)

  datatype Attendance = Attendance(employee: string, overtimeMins: int)

  datatype Config = Config(statutory: Statutory, slabs: seq<TaxSlab>, attendance: seq<Attendance>)

  datatype Payslip = Payslip(run: string, employee: string, grossPay: int, deductions: int, netPay: int)

  datatype RunStatus = Pending | Completed | Failed

  datatype RunRow = RunRow(status: RunStatus, totalNetPay: Option<int>)

  datatype Store = Store(payslips: seq<Payslip>, runs: map<string, RunRow>)

  /** Where an attempt stops, and whether the failure still got recorded. */
  datatype Fault =
    | NoFault
    | BeforeCleanup(recorded: bool)
    | AfterChunks(chunks: nat, recorded: bool)
    | AfterCompletion(recorded: bool)  // completed, but announcing it failed

  function MinutesOf(employee: string): Attendance -> int {
    (a: Attendance) => if a.employee == employee then a.overtimeMins else 0
  }

  function OvertimePay(employee: string, salary: real, attendance: seq<Attendance>): real {
    var overtimeHours := SumBy(attendance, MinutesOf(employee)) as real / 60.0;
    overtimeHours * (salary / 160.0) * 1.5
  }

  /** The payslip of an employee, or none without a contract in force. */
  function PaySlipFor(run: string, e: Employee, cfg: Config): Option<Payslip> {
    if |e.salaries| == 0 then None
    else
      var salary := e.salaries[0];
      var taxRate := ResolveTaxSlabRate(salary, cfg.slabs);
      var overtimePay := OvertimePay(e.id, salary, cfg.attendance);
      var amounts := CalculatePayrollAmounts(salary, overtimePay, cfg.statutory, taxRate).employee;
      Some(Payslip(run, e.id, amounts.grossPay, amounts.totalEmployeeDeductions, amounts.netPay))
  }

  /** Overtime minutes of one employee, row by row. */
  ghost function OwnMinutes(attendance: seq<Attendance>, employee: string): int {
    if |attendance| == 0 then 0
    else
      var last := attendance[|attendance| - 1];
      OwnMinutes(attendance[..|attendance| - 1], employee) + if last.employee == employee then last.overtimeMins else 0
  }

  lemma {:induction false} MinutesAreOwn(attendance: seq<Attendance>, employee: string)
    ensures SumBy(attendance, MinutesOf(employee)) == OwnMinutes(attendance, employee)
  {
    if |attendance| > 0 {
      MinutesAreOwn(attendance[..|attendance| - 1], employee);
    }
  }

  /** One and a half times the hourly rate of a 160-hour month, minute by minute: a 6400th of the salary. */
  lemma OvertimeRate(employee: string, salary: real, attendance: seq<Attendance>)
    ensures 6400.0 * OvertimePay(employee, salary, attendance) == OwnMinutes(attendance, employee) as real * salary
  {
    MinutesAreOwn(attendance, employee);
    SixtyByHundredSixty(OwnMinutes(attendance, employee) as real, salary);
  }

  lemma SixtyByHundredSixty(minutes: real, salary: real)
    ensures 6400.0 * (minutes / 60.0 * (salary / 160.0) * 1.5) == minutes * salary
  {
    var hours, rate := minutes / 60.0, salary / 160.0;
    assert 60.0 * hours == minutes && 160.0 * rate == salary;
    assert minutes * salary == (60.0 * hours) * (160.0 * rate) == 9600.0 * (hours * rate);
  }

  lemma OvertimeIs(employee: string, salary: real, attendance: seq<Attendance>, overtime: real)
    requires 6400.0 * overtime == OwnMinutes(attendance, employee) as real * salary
    ensures OvertimePay(employee, salary, attendance) == overtime
  {
    OvertimeRate(employee, salary, attendance);
  }

  lemma PayslipAmounts(run: string, e: Employee, cfg: Config)
    requires e.salaries != []
    ensures var salary := e.salaries[0];
            var a := CalculatePayrollAmounts(salary, OvertimePay(e.id, salary, cfg.attendance), cfg.statutory,
                                             ResolveTaxSlabRate(salary, cfg.slabs)).employee;
            PaySlipFor(run, e, cfg) == Some(Payslip(run, e.id, a.grossPay, a.totalEmployeeDeductions, a.netPay))
  {
  }

  /** The slip shows these pay amounts to within their rounding, and its deductions are the difference. */
  ghost predicate Shows(slip: Payslip, gross: real, net: real) {
    && Within(slip.grossPay as real - gross, 0.5)
    && Within(slip.netPay as real - net, 4.5)
    && slip.deductions == slip.grossPay - slip.netPay
  }

  lemma AmountsShown(run: string, employee: string, base: real, overtime: real, s: Statutory, taxRate: real)
    requires RatesAreShares(s, taxRate)
    ensures var a := CalculatePayrollAmounts(base, overtime, s, taxRate).employee;
            Shows(Payslip(run, employee, a.grossPay, a.totalEmployeeDeductions, a.netPay), base + overtime,
                  UnroundedNet(base + overtime, AtRate(base, s.pfEmployeeRate), s, taxRate)
                  - UndueEsi(base + overtime, s.esiEmployeeRate))
  {
    EmployeeSideMeaning(base, overtime, s, taxRate);
  }

  /**
   * What a payslip says: it is the employee's, gross pay is the newest contract's salary plus the
   * employee's own overtime to half a unit, net pay the formula's to four and a half, and the
   * deductions are the difference.
   */
  lemma PayslipMeaning(run: string, e: Employee, cfg: Config, overtime: real)
    requires e.salaries != [] && RatesAreShares(cfg.statutory, ResolveTaxSlabRate(e.salaries[0], cfg.slabs))
    requires 6400.0 * overtime == OwnMinutes(cfg.attendance, e.id) as real * e.salaries[0]
    ensures PaySlipFor(run, e, cfg).Some?
    ensures var slip, salary, s := PaySlipFor(run, e, cfg).value, e.salaries[0], cfg.statutory;
            && slip.run == run && slip.employee == e.id
            && Shows(slip, salary + overtime,
                     UnroundedNet(salary + overtime, AtRate(salary, s.pfEmployeeRate), s,
                                  ResolveTaxSlabRate(salary, cfg.slabs))
                     - UndueEsi(salary + overtime, s.esiEmployeeRate))
  {
    var salary := e.salaries[0];
    OvertimeIs(e.id, salary, cfg.attendance, overtime);
    PayslipAmounts(run, e, cfg);
    AmountsShown(run, e.id, salary, overtime, cfg.statutory, ResolveTaxSlabRate(salary, cfg.slabs));
  }

  /** A concrete payslip: one minute of overtime lifts gross pay into the window above the ESI ceiling. */
  lemma OneMinuteCostsAHundred(run: string, id: string)
    ensures var salary := 209_967_193.0;
            var cfg := Config(DEFAULT_STATUTORY, [], [Attendance(id, 1)]);
            var slip := PaySlipFor(run, Employee(id, [salary]), cfg);
            var gross := salary + OvertimePay(id, salary, cfg.attendance);
            && slip.Some? && gross > ESI_WAGE_CEILING as real && slip.value.grossPay == ESI_WAGE_CEILING
            && slip.value.netPay as real <
               UnroundedNet(gross, AtRate(salary, DEFAULT_STATUTORY.pfEmployeeRate), DEFAULT_STATUTORY, FALLBACK_RATE)
               - 1_000_000.0
  {
    var salary, minute := 209_967_193.0, [Attendance(id, 1)];
    SumByAppend([], minute[0], MinutesOf(id));
    assert [] + [minute[0]] == minute;
    var gross := salary + OvertimePay(id, salary, minute);
    assert RoundsToCeiling(gross);
    assert Round(gross) == ESI_WAGE_CEILING;
    WindowIsCostly(gross, AtRate(salary, DEFAULT_STATUTORY.pfEmployeeRate), FALLBACK_RATE);
  }

  /** How a run pays: the laws below hold of any way of paying that names run and employee. */
  type Payer = Employee -> Option<Payslip>

  function PayerOf(run: string, cfg: Config): Payer {
    (e: Employee) => PaySlipFor(run, e, cfg)
  }

  ghost predicate PaysFor(pay: Payer, run: string) {
    forall e :: pay(e).Some? ==> e.salaries != [] && pay(e).value.run == run && pay(e).value.employee == e.id
  }

  lemma PayerPaysForItsRun(run: string, cfg: Config)
    ensures PaysFor(PayerOf(run, cfg), run)
    ensures forall e :: PayerOf(run, cfg)(e).Some? <==> e.salaries != []
  {
  }

  /** One unchunked pass: a payslip for every employee with a contract, in listing order. */
  function SlipsOf(es: seq<Employee>, pay: Payer): seq<Payslip> {
    if |es| == 0 then [] else
    var front, slip := SlipsOf(es[..|es| - 1], pay), pay(es[|es| - 1]);
    if slip.Some? then front + [slip.value] else front
  }

  function NetOf(): Payslip -> int {
    (p: Payslip) => p.netPay
  }

  /** The payslips of all other runs. */
  function Others(payslips: seq<Payslip>, run: string): seq<Payslip> {
    if |payslips| == 0 then [] else
    var front, p := Others(payslips[..|payslips| - 1], run), payslips[|payslips| - 1];
    if p.run == run then front else front + [p]
  }

  ghost function Recorded(runs: map<string, RunRow>, run: string, recorded: bool): map<string, RunRow> {
    if recorded && run in runs then runs[run := runs[run].(status := Failed)] else runs
  }

  /** Where the walk stands after a number of chunks. */
  function Reached(chunks: nat, chunkSize: nat): nat {
    if chunks == 0 then 0 else Reached(chunks - 1, chunkSize) + chunkSize
  }

  /** How far an attempt is to get: through the given number of chunks, or to the end. */
  function Target(employees: nat, chunkSize: nat, stop: Option<nat>): nat {
    if stop.Some? then Reached(stop.value, chunkSize) else employees
  }

  /** The run as an attempt that pays everybody leaves it. */
  ghost function Completion(runs: map<string, RunRow>, run: string, slips: seq<Payslip>): map<string, RunRow> {
    if run in runs then runs[run := RunRow(Completed, Some(SumBy(slips, NetOf())))] else runs
  }

  /** What one attempt leaves behind. */
  ghost function AfterAttempt(
    s: Store, run: string, es: seq<Employee>, pay: Payer, chunkSize: nat, fault: Fault): Store
  {
    match fault
    case BeforeCleanup(recorded) => s.(runs := Recorded(s.runs, run, recorded))
    case AfterChunks(k, recorded) =>
      var slips := SlipsOf(es[..Min(Reached(k, chunkSize), |es|)], pay);
      Store(Others(s.payslips, run) + slips, Recorded(s.runs, run, recorded))
    case AfterCompletion(recorded) =>
      var slips := SlipsOf(es, pay);
      Store(Others(s.payslips, run) + slips, Recorded(Completion(s.runs, run, slips), run, recorded))
    case NoFault =>
      var slips := SlipsOf(es, pay);
      Store(Others(s.payslips, run) + slips, Completion(s.runs, run, slips))
  }

  lemma {:induction false} SlipsConcat(a: seq<Employee>, b: seq<Employee>, pay: Payer)
    ensures SlipsOf(a + b, pay) == SlipsOf(a, pay) + SlipsOf(b, pay)
  {
    if |b| == 0 {
      assert a + b == a;
    } else {
      var front := b[..|b| - 1];
      SlipsConcat(a, front, pay);
      assert (a + b)[..|a + b| - 1] == a + front;
    }
  }

  /** The first `skip` employees have been paid: their payslips are stored and summed. */
  ghost predicate PaidUpTo(
    es: seq<Employee>, pay: Payer, skip: nat, others: seq<Payslip>, payslips: seq<Payslip>, total: int)
  {
    var slips := SlipsOf(es[..Min(skip, |es|)], pay);
    payslips == others + slips && total == SumBy(slips, NetOf())
  }

  lemma NobodyPaid(es: seq<Employee>, pay: Payer, others: seq<Payslip>)
    ensures PaidUpTo(es, pay, 0, others, others, 0)
  {
    assert es[..0] == [];
  }

  /** Only how far the walk got inside the listing matters. */
  lemma SamePrefixPaid(
    es: seq<Employee>, pay: Payer, skip: nat, other: nat, others: seq<Payslip>, payslips: seq<Payslip>, total: int)
    requires PaidUpTo(es, pay, skip, others, payslips, total) && Min(skip, |es|) == Min(other, |es|)
    ensures PaidUpTo(es, pay, other, others, payslips, total)
  {
  }

  lemma PaidOneMoreChunk(
    es: seq<Employee>, pay: Payer, skip: nat, size: nat, others: seq<Payslip>, payslips: seq<Payslip>, total: int)
    requires PaidUpTo(es, pay, skip, others, payslips, total) && skip <= |es|
    ensures var slips := SlipsOf(es[skip..Min(skip + size, |es|)], pay);
            PaidUpTo(es, pay, skip + size, others, payslips + slips, total + SumBy(slips, NetOf()))
  {
    var chunk := es[skip..Min(skip + size, |es|)];
    SlipsConcat(es[..skip], chunk, pay);
    assert es[..skip] + chunk == es[..Min(skip + size, |es|)];
    SumByConcat(SlipsOf(es[..skip], pay), SlipsOf(chunk, pay), NetOf());
    assert others + SlipsOf(es[..skip], pay) + SlipsOf(chunk, pay)
        == others + (SlipsOf(es[..skip], pay) + SlipsOf(chunk, pay));
  }

  class PayrollProcessor {
    var payslips: seq<Payslip>
    var runs: map<string, RunRow>

    ghost function View(): Store
      reads this
    {
      Store(payslips, runs)
    }

    constructor (runs: map<string, RunRow>)
      ensures View() == Store([], runs)
    {
      payslips := [];
      this.runs := runs;
    }

    method RecordFailure(run: string, recorded: bool)
      modifies `runs
      ensures runs == Recorded(old(runs), run, recorded)
    {
      if recorded && run in runs {
        runs := runs[run := runs[run].(status := Failed)];
      }
    }

    /** The payslips of one chunk and their net pay. */
    method ProcessChunk(chunk: seq<Employee>, pay: Payer) returns (inserts: seq<Payslip>, net: int)
      ensures inserts == SlipsOf(chunk, pay)
      ensures net == SumBy(inserts, NetOf())
    {
      inserts, net := [], 0;
      for i := 0 to |chunk|
        invariant inserts == SlipsOf(chunk[..i], pay)
        invariant net == SumBy(inserts, NetOf())
      {
        assert chunk[..i + 1][..i] == chunk[..i];
        var slip := pay(chunk[i]);
        if slip.Some? {
          SumByAppend(inserts, slip.value, NetOf());
          net := net + slip.value.netPay;
          inserts := inserts + [slip.value];
        }
      }
      assert chunk[..|chunk|] == chunk;
    }

    /** Chunks from the first employee on, until the listing or the given number of chunks runs out. */
    method ProcessChunks(es: seq<Employee>, pay: Payer, chunkSize: nat, stop: Option<nat>)
      returns (totalNetPaySum: int)
      requires chunkSize > 0
      modifies `payslips
      ensures PaidUpTo(es, pay, Target(|es|, chunkSize, stop), old(payslips), payslips, totalNetPaySum)
    {
      ghost var others := payslips;
      var skip, chunks := 0, 0;
      totalNetPaySum := 0;
      NobodyPaid(es, pay, others);
      while !(stop.Some? && chunks == stop.value)
        invariant skip == Reached(chunks, chunkSize)
        invariant stop.Some? ==> chunks <= stop.value
        invariant PaidUpTo(es, pay, skip, others, payslips, totalNetPaySum)
        decreases |es| - skip
      {
        var employees := es[Min(skip, |es|)..Min(skip + chunkSize, |es|)];
        if |employees| == 0 {
          break;
        }
        var inserts, net := ProcessChunk(employees, pay);
        PaidOneMoreChunk(es, pay, skip, chunkSize, others, payslips, totalNetPaySum);
        payslips := payslips + inserts;
        totalNetPaySum := totalNetPaySum + net;
        skip, chunks := skip + chunkSize, chunks + 1;
      }
      AttemptCoversPrefix(|es|, chunkSize, chunks, stop);
      SamePrefixPaid(es, pay, skip, Target(|es|, chunkSize, stop), others, payslips, totalNetPaySum);
    }

    /** One attempt over a listing of the active employees that is stable while it runs. */
    method Process(run: string, es: seq<Employee>, cfg: Config, chunkSize: nat, fault: Fault)
      requires chunkSize > 0
      modifies this
      ensures View() == AfterAttempt(old(View()), run, es, PayerOf(run, cfg), chunkSize, fault)
      ensures SameOthers(old(payslips), payslips, run)
    {
      AttemptKeepsOtherRows(View(), run, es, cfg, chunkSize, fault);
      if fault.BeforeCleanup? {
        RecordFailure(run, fault.recorded);
        return;
      }
      payslips := Others(payslips, run);
      var stop := if fault.AfterChunks? then Some(fault.chunks) else None;
      var totalNetPaySum := ProcessChunks(es, PayerOf(run, cfg), chunkSize, stop);
      if fault.AfterChunks? {
        RecordFailure(run, fault.recorded);
      } else {
        assert es[..|es|] == es;
        if run in runs {
          runs := runs[run := RunRow(Completed, Some(totalNetPaySum))];
        }
        if fault.AfterCompletion? {
          RecordFailure(run, fault.recorded);
        }
      }
    }
  }

  lemma {:induction false} ReachedIsMonotone(chunks: nat, more: nat, chunkSize: nat)
    requires chunks <= more
    ensures Reached(chunks, chunkSize) <= Reached(more, chunkSize)
    decreases more
  {
    if chunks < more {
      ReachedIsMonotone(chunks, more - 1, chunkSize);
    }
  }

  /** A walk that ran out of employees has covered what any later stopping point would cover. */
  lemma AttemptCoversPrefix(n: nat, chunkSize: nat, chunks: nat, stop: Option<nat>)
    requires stop.Some? ==> chunks <= stop.value
    requires stop != Some(chunks) ==> Reached(chunks, chunkSize) >= n
    ensures Min(Reached(chunks, chunkSize), n) == Min(Target(n, chunkSize, stop), n)
  {
    if stop.Some? {
      ReachedIsMonotone(chunks, stop.value, chunkSize);
    }
  }

  // ---------------------------------------------------------------------------------------
  // Attempts followed by one that completes

  /** Each attempt reads its own listing and settings. */
  datatype Attempt = Attempt(es: seq<Employee>, pay: Payer, chunkSize: nat, fault: Fault)

  ghost function AfterAttempts(s: Store, run: string, attempts: seq<Attempt>): Store {
    if |attempts| == 0 then s else
    var a := attempts[|attempts| - 1];
    AfterAttempt(AfterAttempts(s, run, attempts[..|attempts| - 1]), run, a.es, a.pay, a.chunkSize, a.fault)
  }

  lemma {:induction false} OthersOfConcat(a: seq<Payslip>, b: seq<Payslip>, run: string)
    ensures Others(a + b, run) == Others(a, run) + Others(b, run)
  {
    if |b| == 0 {
      assert a + b == a;
    } else {
      var front := b[..|b| - 1];
      OthersOfConcat(a, front, run);
      assert (a + b)[..|a + b| - 1] == a + front;
    }
  }

  lemma {:induction false} OthersOfOwn(run: string, es: seq<Employee>, pay: Payer)
    requires PaysFor(pay, run)
    ensures Others(SlipsOf(es, pay), run) == []
  {
    if |es| > 0 {
      OthersOfOwn(run, es[..|es| - 1], pay);
    }
  }

  lemma {:induction false} OthersIsStable(a: seq<Payslip>, run: string)
    ensures Others(Others(a, run), run) == Others(a, run)
  {
    if |a| > 0 {
      OthersIsStable(a[..|a| - 1], run);
    }
  }

  /** Replacing a run's payslips by new ones of that run leaves the others as they were. */
  lemma ReplacingKeepsOthers(payslips: seq<Payslip>, run: string, paid: seq<Employee>, pay: Payer)
    requires PaysFor(pay, run)
    ensures Others(Others(payslips, run) + SlipsOf(paid, pay), run) == Others(payslips, run)
  {
    OthersOfConcat(Others(payslips, run), SlipsOf(paid, pay), run);
    OthersOfOwn(run, paid, pay);
    OthersIsStable(payslips, run);
  }

  lemma AttemptKeepsOthers(s: Store, run: string, a: Attempt)
    requires PaysFor(a.pay, run)
    ensures var after := AfterAttempt(s, run, a.es, a.pay, a.chunkSize, a.fault);
            && Others(after.payslips, run) == Others(s.payslips, run)
            && after.runs.Keys == s.runs.Keys
            && forall r :: r in s.runs && r != run ==> after.runs[r] == s.runs[r]
  {
    match a.fault
    case BeforeCleanup(_) =>
    case AfterChunks(k, _) =>
      ReplacingKeepsOthers(s.payslips, run, a.es[..Min(Reached(k, a.chunkSize), |a.es|)], a.pay);
    case AfterCompletion(_) => ReplacingKeepsOthers(s.payslips, run, a.es, a.pay);
    case NoFault => ReplacingKeepsOthers(s.payslips, run, a.es, a.pay);
  }

  /** No attempt touches the payslips of other runs, and none forgets that the run exists. */
  lemma {:induction false} AttemptsKeepOthers(s: Store, run: string, attempts: seq<Attempt>)
    requires forall a :: a in attempts ==> PaysFor(a.pay, run)
    ensures var after := AfterAttempts(s, run, attempts);
            && Others(after.payslips, run) == Others(s.payslips, run)
            && after.runs.Keys == s.runs.Keys
            && forall r :: r in s.runs && r != run ==> after.runs[r] == s.runs[r]
  {
    if |attempts| > 0 {
      var front := attempts[..|attempts| - 1];
      AttemptsKeepOthers(s, run, front);
      AttemptKeepsOthers(AfterAttempts(s, run, front), run, attempts[|attempts| - 1]);
    }
  }

  /**
   * Any number of attempts that stopped anywhere, then one that completes, with any chunk sizes:
   * the store is that of a single unchunked pass, and the total is the sum of its payslips.
   */
  lemma RetriesEqualOneCleanPass(
    s: Store, run: string, attempts: seq<Attempt>, es: seq<Employee>, pay: Payer, chunkSize: nat)
    requires run in s.runs && forall a :: a in attempts ==> PaysFor(a.pay, run)
    ensures var after := AfterAttempt(AfterAttempts(s, run, attempts), run, es, pay, chunkSize, NoFault);
            var slips := SlipsOf(es, pay);
            && after.payslips == Others(s.payslips, run) + slips
            && after.runs == s.runs[run := RunRow(Completed, Some(SumBy(slips, NetOf())))]
  {
    AttemptsKeepOthers(s, run, attempts);
  }

  ghost function IsOther(run: string): Payslip -> bool {
    (p: Payslip) => p.run != run
  }

  ghost function IsOwn(run: string): Payslip -> bool {
    (p: Payslip) => p.run == run
  }

  /** The payslips of other runs: all of them, in table order. */
  lemma {:induction false} OthersIsFiltered(payslips: seq<Payslip>, run: string)
    ensures IsFiltered(payslips, IsOther(run), Others(payslips, run))
  {
    if |payslips| == 0 {
      NothingIsFiltered(IsOther(run));
    } else {
      var front, last := payslips[..|payslips| - 1], payslips[|payslips| - 1];
      assert payslips == front + [last];
      OthersIsFiltered(front, run);
      FilteredAppend(front, IsOther(run), Others(front, run), last);
    }
  }

  /** Two stores agree on the payslips of all runs but one: the same rows, as often and in the same order. */
  ghost predicate SameOthers(payslips: seq<Payslip>, after: seq<Payslip>, run: string) {
    && (exists kept :: IsFiltered(payslips, IsOther(run), kept) && IsFiltered(after, IsOther(run), kept))
    && forall p: Payslip :: p.run != run ==> multiset(after)[p] == multiset(payslips)[p]
  }

  lemma EqualOthersAreSame(payslips: seq<Payslip>, after: seq<Payslip>, run: string)
    requires Others(payslips, run) == Others(after, run)
    ensures SameOthers(payslips, after, run)
  {
    var kept := Others(payslips, run);
    OthersIsFiltered(payslips, run);
    OthersIsFiltered(after, run);
    forall p: Payslip | p.run != run
      ensures multiset(after)[p] == multiset(payslips)[p]
    {
      FilteredCounts(payslips, IsOther(run), kept, p);
      FilteredCounts(after, IsOther(run), kept, p);
    }
  }

  /** No attempts, however many and wherever they stop, touch a payslip or row of another run. */
  lemma AttemptsKeepOtherRows(s: Store, run: string, attempts: seq<Attempt>)
    requires forall a :: a in attempts ==> PaysFor(a.pay, run)
    ensures var after := AfterAttempts(s, run, attempts);
            && SameOthers(s.payslips, after.payslips, run)
            && after.runs.Keys == s.runs.Keys
            && forall r :: r in s.runs && r != run ==> after.runs[r] == s.runs[r]
  {
    AttemptsKeepOthers(s, run, attempts);
    EqualOthersAreSame(s.payslips, AfterAttempts(s, run, attempts).payslips, run);
  }

  lemma AttemptKeepsOtherRows(
    s: Store, run: string, es: seq<Employee>, cfg: Config, chunkSize: nat, fault: Fault)
    ensures SameOthers(
              s.payslips, AfterAttempt(s, run, es, PayerOf(run, cfg), chunkSize, fault).payslips, run)
  {
    var attempt := Attempt(es, PayerOf(run, cfg), chunkSize, fault);
    PayerPaysForItsRun(run, cfg);
    AttemptsKeepOtherRows(s, run, [attempt]);
    assert [attempt][..0] == [] && AfterAttempts(s, run, []) == s;
  }

  /** After a completing attempt the run's own rows are exactly the new payslips. */
  lemma CompletedRunReplacesItsRows(
    s: Store, run: string, attempts: seq<Attempt>, es: seq<Employee>, pay: Payer, chunkSize: nat)
    requires run in s.runs && PaysFor(pay, run) && forall a :: a in attempts ==> PaysFor(a.pay, run)
    ensures var after := AfterAttempt(AfterAttempts(s, run, attempts), run, es, pay, chunkSize, NoFault);
            && SameOthers(s.payslips, after.payslips, run)
            && IsFiltered(after.payslips, IsOwn(run), SlipsOf(es, pay))
  {
    var others, slips := Others(s.payslips, run), SlipsOf(es, pay);
    RetriesEqualOneCleanPass(s, run, attempts, es, pay, chunkSize);
    ReplacingKeepsOthers(s.payslips, run, es, pay);
    EqualOthersAreSame(s.payslips, others + slips, run);
    OthersIsFiltered(s.payslips, run);
    forall p | p in others
      ensures p.run != run
    {
      FilteredMember(s.payslips, IsOther(run), others, p);
    }
    SlipsAreOwn(run, es, pay);
    NoneAreFiltered(others, IsOwn(run));
    AllAreFiltered(slips, IsOwn(run));
    FilteredConcat(others, slips, IsOwn(run), [], slips);
    assert [] + slips == slips;
  }

  ghost function IsPaid(pay: Payer): Employee -> bool {
    (e: Employee) => pay(e).Some?
  }

  ghost predicate PaidInOrder(paid: seq<Employee>, pay: Payer, slips: seq<Payslip>) {
    |slips| == |paid| && forall i :: 0 <= i < |paid| ==> pay(paid[i]) == Some(slips[i])
  }

  lemma PaidOneMore(front: seq<Employee>, last: Employee, pay: Payer, before: seq<Employee>)
    requires PaidInOrder(before, pay, SlipsOf(front, pay))
    ensures PaidInOrder(if IsPaid(pay)(last) then before + [last] else before, pay, SlipsOf(front + [last], pay))
  {
    assert (front + [last])[..|front|] == front;
  }

  /** The payslips of a pass are those of the employees that get one, one each and in listing order. */
  lemma {:induction false} SlipsFollowTheListing(es: seq<Employee>, pay: Payer) returns (paid: seq<Employee>)
    ensures IsFiltered(es, IsPaid(pay), paid) && PaidInOrder(paid, pay, SlipsOf(es, pay))
  {
    if |es| == 0 {
      NothingIsFiltered(IsPaid(pay));
      paid := [];
    } else {
      var front, last := es[..|es| - 1], es[|es| - 1];
      assert es == front + [last];
      var before := SlipsFollowTheListing(front, pay);
      PaidOneMore(front, last, pay, before);
      FilteredAppend(front, IsPaid(pay), before, last);
      paid := if IsPaid(pay)(last) then before + [last] else before;
    }
  }

  ghost function SlipsFor(employee: string): Payslip -> int {
    (p: Payslip) => if p.employee == employee then 1 else 0
  }

  ghost predicate DistinctEmployees(es: seq<Employee>) {
    forall i, j :: 0 <= i < j < |es| ==> es[i].id != es[j].id
  }

  /** Each listed employee with a contract gets exactly one payslip, everybody else none. */
  lemma {:induction false} OnePayslipPerEligibleEmployee(run: string, es: seq<Employee>, pay: Payer, id: string)
    requires DistinctEmployees(es) && PaysFor(pay, run)
    requires forall e: Employee :: e.salaries != [] ==> pay(e).Some?
    ensures SumBy(SlipsOf(es, pay), SlipsFor(id)) == if Eligible(es, id) then 1 else 0
  {
    if |es| > 0 {
      var front, e := es[..|es| - 1], es[|es| - 1];
      OnePayslipPerEligibleEmployee(run, front, pay, id);
      if pay(e).Some? {
        SumByAppend(SlipsOf(front, pay), pay(e).value, SlipsFor(id));
      }
      EligibleLast(es, id);
    }
  }

  ghost predicate EligibleAt(es: seq<Employee>, id: string, i: int) {
    0 <= i < |es| && es[i].id == id && es[i].salaries != []
  }

  ghost predicate Eligible(es: seq<Employee>, id: string) {
    exists i :: EligibleAt(es, id, i)
  }

  lemma EligibleLast(es: seq<Employee>, id: string)
    requires DistinctEmployees(es) && |es| > 0
    ensures var front, e := es[..|es| - 1], es[|es| - 1];
            && (Eligible(es, id) <==> Eligible(front, id) || (e.id == id && e.salaries != []))
            && (Eligible(front, id) ==> e.id != id)
  {
    var front := es[..|es| - 1];
    if Eligible(front, id) {
      var i :| EligibleAt(front, id, i);
      assert EligibleAt(es, id, i);
    }
    if Eligible(es, id) {
      var i :| EligibleAt(es, id, i);
      if i < |front| {
        assert EligibleAt(front, id, i);
      }
    }
    if es[|es| - 1].id == id && es[|es| - 1].salaries != [] {
      assert EligibleAt(es, id, |es| - 1);
    }
  }

  /** How many payslips of a run an employee has in the store. */
  ghost function StoredFor(run: string, employee: string): Payslip -> int {
    (p: Payslip) => if p.run == run && p.employee == employee then 1 else 0
  }

  ghost function StoredNet(run: string): Payslip -> int {
    (p: Payslip) => if p.run == run then p.netPay else 0
  }

  /** Sums that look at one run only skip the other runs' payslips and see all of its own. */
  lemma {:induction false} OthersHaveNone(payslips: seq<Payslip>, run: string, f: Payslip -> int)
    requires forall p: Payslip :: p.run != run ==> f(p) == 0
    ensures SumBy(Others(payslips, run), f) == 0
  {
    if |payslips| > 0 {
      var front, p := payslips[..|payslips| - 1], payslips[|payslips| - 1];
      OthersHaveNone(front, run, f);
      if p.run != run {
        SumByAppend(Others(front, run), p, f);
      }
    }
  }

  lemma {:induction false} SlipsAreOwn(run: string, es: seq<Employee>, pay: Payer)
    requires PaysFor(pay, run)
    ensures forall p :: p in SlipsOf(es, pay) ==> p.run == run
  {
    if |es| > 0 {
      SlipsAreOwn(run, es[..|es| - 1], pay);
    }
  }

  /**
   * After any attempts that stopped anywhere and one that completes, the store holds exactly one
   * payslip of the run for each listed employee with a contract in force, none for anybody else,
   * and the run's total is the sum of its stored payslips.
   */
  lemma CompletedRunPaysEachOnce(
    s: Store, run: string, attempts: seq<Attempt>, es: seq<Employee>, cfg: Config, chunkSize: nat, id: string)
    requires run in s.runs && DistinctEmployees(es)
    requires forall a :: a in attempts ==> PaysFor(a.pay, run)
    ensures var after := AfterAttempt(AfterAttempts(s, run, attempts), run, es, PayerOf(run, cfg), chunkSize, NoFault);
            && SumBy(after.payslips, StoredFor(run, id)) == (if Eligible(es, id) then 1 else 0)
            && after.runs == s.runs[run := RunRow(Completed, Some(SumBy(after.payslips, StoredNet(run))))]
  {
    var pay := PayerOf(run, cfg);
    var others, slips := Others(s.payslips, run), SlipsOf(es, pay);
    PayerPaysForItsRun(run, cfg);
    RetriesEqualOneCleanPass(s, run, attempts, es, pay, chunkSize);
    SumByConcat(others, slips, StoredFor(run, id));
    SumByConcat(others, slips, StoredNet(run));
    OthersHaveNone(s.payslips, run, StoredFor(run, id));
    OthersHaveNone(s.payslips, run, StoredNet(run));
    SlipsAreOwn(run, es, pay);
    SumByAgree(slips, StoredFor(run, id), SlipsFor(id));
    SumByAgree(slips, StoredNet(run), NetOf());
    OnePayslipPerEligibleEmployee(run, es, pay, id);
  }
}
