/**
 * Labour cost: net pay is split over an employee's project allocations in proportion to hours,
 * and the reported costs accumulate, once per source, on the newest budget of each project.
 * Amounts are in units of 0.0001, hours in units of 0.01.
 */
module ProjectCosts {
  import opened Prelude
  import opened Selections
  import PayrollMath

  datatype Payslip = Payslip(id: string, employee: string, netPay: int)

  /** An allocation in force during the payroll period. */
  datatype Allocation = Allocation(employee: string, project: string, hours: int)

  /** What a cost was reported for; labour costs are keyed by payslip and project. */
  datatype Source = Labour(payslip: string, project: string) | Record(moduleName: string, id: string)

  datatype CostReport = CostReport(project: string, amount: int, source: Option<Source>)

  datatype Budget = Budget(id: string, project: string, planned: int, thresholdPct: real, actual: int)

  datatype BudgetLine = BudgetLine(budget: string, amount: int, source: Option<Source>)

  datatype Books = Books(budgets: seq<Budget>, lines: seq<BudgetLine>)

  // ---------------------------------------------------------------------------------------
  // Splitting net pay

  function HoursOf(): Allocation -> int {
    (a: Allocation) => a.hours
  }

  function ExactShare(net: int, hours: int, total: int): real
    requires total > 0
  {
    (net * hours) as real / total as real
  }

  function Share(net: int, hours: int, total: int): int
    requires total > 0
  {
    PayrollMath.Round(ExactShare(net, hours, total))
  }

  /** The reports for one payslip; shares that round to nothing are not reported. */
  function ReportsFor(p: Payslip, allocations: seq<Allocation>, total: int): seq<CostReport>
    requires total > 0
  {
    if |allocations| == 0 then [] else
    var front, a := ReportsFor(p, allocations[..|allocations| - 1], total), allocations[|allocations| - 1];
    var amount := Share(p.netPay, a.hours, total);
    if amount <= 0 then front else front + [CostReport(a.project, amount, Some(Labour(p.id, a.project)))]
  }

  /** The allocations of one employee. */
  function OfEmployee(allocations: seq<Allocation>, employee: string): seq<Allocation> {
    if |allocations| == 0 then [] else
    var front, a := OfEmployee(allocations[..|allocations| - 1], employee), allocations[|allocations| - 1];
    if a.employee == employee then front + [a] else front
  }

  function IsOf(employee: string): Allocation -> bool {
    (a: Allocation) => a.employee == employee
  }

  lemma {:induction false} OfEmployeeIsFiltered(allocations: seq<Allocation>, employee: string)
    ensures IsFiltered(allocations, IsOf(employee), OfEmployee(allocations, employee))
  {
    if |allocations| == 0 {
      NothingIsFiltered(IsOf(employee));
    } else {
      var front, last := allocations[..|allocations| - 1], allocations[|allocations| - 1];
      assert allocations == front + [last];
      OfEmployeeIsFiltered(front, employee);
      FilteredAppend(front, IsOf(employee), OfEmployee(front, employee), last);
    }
  }

  /** The rounded share of net pay that the allocation's hours are of all `hours`, when it is positive. */
  ghost predicate ReportedFor(p: Payslip, a: Allocation, hours: int, r: CostReport) {
    && hours > 0
    && r.amount == PayrollMath.Round((p.netPay * a.hours) as real / hours as real) > 0
    && r.project == a.project && r.source == Some(Labour(p.id, a.project))
  }

  lemma {:induction false} ReportsForAre(p: Payslip, allocations: seq<Allocation>, total: int, r: CostReport)
    requires total > 0
    ensures r in ReportsFor(p, allocations, total) <==>
            exists i :: 0 <= i < |allocations| && ReportedFor(p, allocations[i], total, r)
  {
    if |allocations| > 0 {
      var n := |allocations| - 1;
      var front, last := allocations[..n], allocations[n];
      ReportsForAre(p, front, total, r);
      assert (exists i :: 0 <= i < n && ReportedFor(p, front[i], total, r)) <==>
             exists i :: 0 <= i < n && ReportedFor(p, allocations[i], total, r);
    }
  }

  /** A payslip's cost goes to the projects of the employee's own allocations, by their hours. */
  lemma ReportsOfPayslipAre(p: Payslip, allocations: seq<Allocation>, own: seq<Allocation>, r: CostReport)
    requires IsFiltered(allocations, IsOf(p.employee), own)
    ensures r in ReportsOfPayslip(p, allocations) <==>
            exists i :: 0 <= i < |own| && ReportedFor(p, own[i], SumBy(own, HoursOf()), r)
  {
    OfEmployeeIsFiltered(allocations, p.employee);
    FilteredIsUnique(allocations, IsOf(p.employee), own, OfEmployee(allocations, p.employee));
    if SumBy(own, HoursOf()) > 0 {
      ReportsForAre(p, own, SumBy(own, HoursOf()), r);
    }
  }

  function ReportsOfPayslip(p: Payslip, allocations: seq<Allocation>): seq<CostReport> {
    var own := OfEmployee(allocations, p.employee);
    var total := SumBy(own, HoursOf());
    if total <= 0 then [] else ReportsFor(p, own, total)
  }

  /** Everything reported for a payroll run, payslip by payslip. */
  function Reports(payslips: seq<Payslip>, allocations: seq<Allocation>): seq<CostReport> {
    if |payslips| == 0 then [] else
    Reports(payslips[..|payslips| - 1], allocations) + ReportsOfPayslip(payslips[|payslips| - 1], allocations)
  }

  class LaborCostBridge {
    var reported: seq<CostReport>

    constructor ()
      ensures reported == []
    {
      reported := [];
    }

    method ReportPayslip(p: Payslip, allocations: seq<Allocation>) returns (emitted: nat)
      modifies this
      ensures reported == old(reported) + ReportsOfPayslip(p, allocations)
      ensures emitted == |ReportsOfPayslip(p, allocations)|
    {
      emitted := 0;
      var own := OfEmployee(allocations, p.employee);
      var totalHours := 0;
      for i := 0 to |own|
        invariant totalHours == SumBy(own[..i], HoursOf())
      {
        assert own[..i + 1][..i] == own[..i];
        totalHours := totalHours + own[i].hours;
      }
      assert own[..|own|] == own;
      if totalHours <= 0 {
        return;
      }
      for i := 0 to |own|
        invariant reported == old(reported) + ReportsFor(p, own[..i], totalHours)
        invariant emitted == |ReportsFor(p, own[..i], totalHours)|
      {
        assert own[..i + 1][..i] == own[..i];
        var amount := Share(p.netPay, own[i].hours, totalHours);
        if amount > 0 {
          reported := reported + [CostReport(own[i].project, amount, Some(Labour(p.id, own[i].project)))];
          emitted := emitted + 1;
        }
      }
    }

    method OnPayrollCompleted(payslips: seq<Payslip>, allocations: seq<Allocation>) returns (emitted: nat)
      modifies this
      ensures reported == old(reported) + Reports(payslips, allocations)
      ensures emitted == |Reports(payslips, allocations)|
    {
      emitted := 0;
      for i := 0 to |payslips|
        invariant reported == old(reported) + Reports(payslips[..i], allocations)
        invariant emitted == |Reports(payslips[..i], allocations)|
      {
        assert payslips[..i + 1][..i] == payslips[..i];
        var n := ReportPayslip(payslips[i], allocations);
        emitted := emitted + n;
      }
      assert payslips[..|payslips|] == payslips;
    }
  }

  function AmountOf(): CostReport -> int {
    (r: CostReport) => r.amount
  }

  /** The unrounded shares of a list of allocations, added up one by one. */
  ghost function ExactShares(net: int, allocations: seq<Allocation>, total: int): real
    requires total > 0
  {
    if |allocations| == 0 then 0.0
    else
      ExactShares(net, allocations[..|allocations| - 1], total)
      + ExactShare(net, allocations[|allocations| - 1].hours, total)
  }

  lemma QuotientAdds(a: real, b: real, d: real)
    requires d > 0.0
    ensures (a + b) / d == a / d + b / d
  {
  }

  lemma QuotientOfProduct(a: real, d: real)
    requires d > 0.0
    ensures a * d / d == a
  {
  }

  lemma ExactShareAdds(net: int, a: int, b: int, total: int)
    requires total > 0
    ensures ExactShare(net, a + b, total) == ExactShare(net, a, total) + ExactShare(net, b, total)
  {
    assert net * (a + b) == net * a + net * b;
    QuotientAdds((net * a) as real, (net * b) as real, total as real);
  }

  lemma NoShare(net: int, total: int)
    requires total > 0
    ensures ExactShare(net, 0, total) == 0.0
  {
    assert net * 0 == 0;
  }

  lemma WholeShare(net: int, total: int)
    requires total > 0
    ensures ExactShare(net, total, total) == net as real
  {
    assert (net * total) as real == net as real * total as real;
    QuotientOfProduct(net as real, total as real);
  }

  /** The unrounded shares of a list are the share of its hours. */
  lemma {:induction false} ExactSharesAddUp(net: int, allocations: seq<Allocation>, total: int)
    requires total > 0
    ensures ExactShares(net, allocations, total) == ExactShare(net, SumBy(allocations, HoursOf()), total)
  {
    if |allocations| == 0 {
      NoShare(net, total);
    } else {
      var front, hours := allocations[..|allocations| - 1], allocations[|allocations| - 1].hours;
      ExactSharesAddUp(net, front, total);
      ExactShareAdds(net, SumBy(front, HoursOf()), hours, total);
    }
  }

  lemma ShareIsNear(net: int, hours: int, total: int)
    requires total > 0
    ensures PayrollMath.Within(Share(net, hours, total) as real - ExactShare(net, hours, total), 0.5)
  {
    PayrollMath.RoundIsNear(ExactShare(net, hours, total));
  }

  lemma ShareIsNonNegative(net: int, hours: int, total: int)
    requires total > 0 && net >= 0 && hours >= 0
    ensures Share(net, hours, total) >= 0
  {
    assert net * hours >= 0;
    assert ExactShare(net, hours, total) >= 0.0;
    PayrollMath.RoundIsMonotone(0.0, ExactShare(net, hours, total));
  }

  lemma OneMoreShare(sum: int, share: int, n: nat, exactSum: real, exactShare: real)
    requires PayrollMath.Within(sum as real - exactSum, n as real * 0.5)
    requires PayrollMath.Within(share as real - exactShare, 0.5)
    ensures PayrollMath.Within((sum + share) as real - (exactSum + exactShare), (n + 1) as real * 0.5)
  {
  }

  lemma ReportsForOneMore(p: Payslip, front: seq<Allocation>, a: Allocation, total: int)
    requires total > 0
    ensures var share := Share(p.netPay, a.hours, total);
            ReportsFor(p, front + [a], total) == ReportsFor(p, front, total)
              + if share <= 0 then [] else [CostReport(a.project, share, Some(Labour(p.id, a.project)))]
  {
    assert (front + [a])[..|front|] == front;
  }

  /** A share that is not reported is zero, so the reports add up to the rounded shares. */
  lemma ReportsGrowByShare(p: Payslip, front: seq<Allocation>, a: Allocation, total: int)
    requires total > 0 && p.netPay >= 0 && a.hours >= 0
    ensures SumBy(ReportsFor(p, front + [a], total), AmountOf()) ==
            SumBy(ReportsFor(p, front, total), AmountOf()) + Share(p.netPay, a.hours, total)
  {
    var share := Share(p.netPay, a.hours, total);
    ReportsForOneMore(p, front, a, total);
    ShareIsNonNegative(p.netPay, a.hours, total);
    if share > 0 {
      SumByAppend(
        ReportsFor(p, front, total), CostReport(a.project, share, Some(Labour(p.id, a.project))), AmountOf());
    }
  }

  /** Each allocation rounds away at most half a unit. */
  lemma {:induction false} PartialSplit(p: Payslip, allocations: seq<Allocation>, total: int)
    requires total > 0 && p.netPay >= 0 && forall a :: a in allocations ==> a.hours >= 0
    ensures PayrollMath.Within(
              SumBy(ReportsFor(p, allocations, total), AmountOf()) as real
              - ExactShares(p.netPay, allocations, total),
              |allocations| as real * 0.5)
  {
    if |allocations| > 0 {
      var front, a := allocations[..|allocations| - 1], allocations[|allocations| - 1];
      assert a in allocations && allocations == front + [a];
      PartialSplit(p, front, total);
      ReportsGrowByShare(p, front, a, total);
      ShareIsNear(p.netPay, a.hours, total);
      OneMoreShare(
        SumBy(ReportsFor(p, front, total), AmountOf()), Share(p.netPay, a.hours, total), |front|,
        ExactShares(p.netPay, front, total), ExactShare(p.netPay, a.hours, total));
    }
  }

  /** What is reported for a payslip differs from its net pay by at most half a unit per allocation. */
  lemma SplitIsClose(p: Payslip, allocations: seq<Allocation>)
    requires p.netPay >= 0 && forall a :: a in allocations ==> a.hours >= 0
    requires SumBy(OfEmployee(allocations, p.employee), HoursOf()) > 0
    ensures var own := OfEmployee(allocations, p.employee);
            PayrollMath.Within(
              (SumBy(ReportsOfPayslip(p, allocations), AmountOf()) - p.netPay) as real, |own| as real * 0.5)
  {
    var own := OfEmployee(allocations, p.employee);
    OfEmployeeIsSubset(allocations, p.employee);
    PartialSplit(p, own, SumBy(own, HoursOf()));
    ExactSharesAddUp(p.netPay, own, SumBy(own, HoursOf()));
    WholeShare(p.netPay, SumBy(own, HoursOf()));
  }

  lemma {:induction false} OfEmployeeIsSubset(allocations: seq<Allocation>, employee: string)
    ensures forall a :: a in OfEmployee(allocations, employee) ==> a in allocations && a.employee == employee
  {
    if |allocations| > 0 {
      OfEmployeeIsSubset(allocations[..|allocations| - 1], employee);
    }
  }

  // ---------------------------------------------------------------------------------------
  // Accumulating costs

  ghost predicate HasSource(lines: seq<BudgetLine>, source: Source) {
    exists i :: 0 <= i < |lines| && lines[i].source == Some(source)
  }

  /** The position of the newest budget of a project. */
  ghost predicate IsNewest(budgets: seq<Budget>, project: string, k: int) {
    && 0 <= k < |budgets| && budgets[k].project == project
    && forall j :: k < j < |budgets| ==> budgets[j].project != project
  }

  ghost predicate HasBudget(budgets: seq<Budget>, project: string) {
    exists k :: IsNewest(budgets, project, k)
  }

  function MaxAllowed(budget: Budget): real {
    budget.planned as real + budget.planned as real * (budget.thresholdPct / 100.0)
  }

  /** More is spent than planned plus the tolerated percentage of it. */
  ghost predicate Exceeded(b: Budget) {
    100.0 * b.actual as real > (100.0 + b.thresholdPct) * b.planned as real
  }

  lemma ExceededIff(b: Budget)
    ensures b.actual as real > MaxAllowed(b) <==> Exceeded(b)
  {
    var planned, rate := b.planned as real, b.thresholdPct / 100.0;
    assert 100.0 * rate == b.thresholdPct;
    assert 100.0 * (planned * rate) == planned * b.thresholdPct;
    assert 100.0 * MaxAllowed(b) == (100.0 + b.thresholdPct) * planned;
  }

  /** The newest budget of the project is spent beyond its tolerance. */
  ghost predicate Overrun(budgets: seq<Budget>, project: string) {
    exists k :: IsNewest(budgets, project, k) && Exceeded(budgets[k])
  }

  ghost function Charged(b: Books, k: nat, r: CostReport): Books
    requires k < |b.budgets|
  {
    var budget := b.budgets[k];
    Books(b.budgets[k := budget.(actual := budget.actual + r.amount)],
          b.lines + [BudgetLine(budget.id, r.amount, r.source)])
  }

  /** A report is dropped when its source is known or its project has no budget. */
  ghost predicate Delivered(b: Books, r: CostReport, after: Books) {
    if (r.source.Some? && HasSource(b.lines, r.source.value)) || !HasBudget(b.budgets, r.project) then after == b
    else exists k :: IsNewest(b.budgets, r.project, k) && after == Charged(b, k, r)
  }

  class BudgetService {
    var budgets: seq<Budget>
    var lines: seq<BudgetLine>

    ghost function View(): Books
      reads this
    {
      Books(budgets, lines)
    }

    constructor ()
      ensures View() == Books([], [])
    {
      budgets, lines := [], [];
    }

    method SetBudget(id: string, project: string, planned: int, thresholdPct: real)
      modifies this
      ensures lines == old(lines)
      ensures var threshold := if thresholdPct == 0.0 then 10.0 else thresholdPct;
              budgets == old(budgets) + [Budget(id, project, planned, threshold, 0)]
    {
      var threshold := if thresholdPct == 0.0 then 10.0 else thresholdPct;
      budgets := budgets + [Budget(id, project, planned, threshold, 0)];
    }

    method FindSource(source: Source) returns (found: bool)
      ensures found <==> HasSource(lines, source)
    {
      for i := 0 to |lines|
        invariant forall k :: 0 <= k < i ==> lines[k].source != Some(source)
      {
        if lines[i].source == Some(source) {
          return true;
        }
      }
      return false;
    }

    method HandleCostReported(r: CostReport) returns (overrun: bool)
      modifies this
      ensures Delivered(old(View()), r, View())
      ensures overrun <==> lines != old(lines) && Overrun(budgets, r.project)
    {
      if r.source.Some? {
        var existing := FindSource(r.source.value);
        if existing {
          return false;
        }
      }
      var k := |budgets|;
      while k > 0 && budgets[k - 1].project != r.project
        invariant 0 <= k <= |budgets|
        invariant forall j :: k <= j < |budgets| ==> budgets[j].project != r.project
      {
        k := k - 1;
      }
      if k == 0 {
        return false;
      }
      k := k - 1;
      assert IsNewest(budgets, r.project, k);
      var budget := budgets[k];
      lines := lines + [BudgetLine(budget.id, r.amount, r.source)];
      budgets := budgets[k := budget.(actual := budget.actual + r.amount)];
      assert IsNewest(budgets, r.project, k);
      assert View() == Charged(old(View()), k, r);
      assert lines[..|lines| - 1] == old(lines);
      ExceededIff(budgets[k]);
      return budgets[k].actual as real > MaxAllowed(budgets[k]);
    }
  }

  ghost function OnBudget(id: string): BudgetLine -> int {
    (l: BudgetLine) => if l.budget == id then l.amount else 0
  }

  // ---------------------------------------------------------------------------------------
  // What every run keeps

  datatype Op = NewBudget(budget: Budget) | Report(report: CostReport)

  ghost predicate Step(b: Books, op: Op, after: Books) {
    match op
    case NewBudget(budget) => after == b.(budgets := b.budgets + [budget])
    case Report(r) => Delivered(b, r, after)
  }

  /** A new budget has a new id and nothing spent. */
  ghost predicate Admissible(b: Books, op: Op) {
    op.NewBudget? ==> op.budget.actual == 0 && forall i :: 0 <= i < |b.budgets| ==> b.budgets[i].id != op.budget.id
  }

  ghost predicate Inv(b: Books) {
    && (forall i, j :: 0 <= i < j < |b.budgets| ==> b.budgets[i].id != b.budgets[j].id)
    && (forall l :: l in b.lines ==> exists i :: 0 <= i < |b.budgets| && b.budgets[i].id == l.budget)
    && (forall i :: 0 <= i < |b.budgets| ==> b.budgets[i].actual == SumBy(b.lines, OnBudget(b.budgets[i].id)))
    // no source is recorded twice
    && (forall i, j :: 0 <= i < j < |b.lines| && b.lines[i].source.Some? ==> b.lines[i].source != b.lines[j].source)
  }

  lemma ChargeKeepsInv(b: Books, k: nat, r: CostReport)
    requires Inv(b) && k < |b.budgets| && !(r.source.Some? && HasSource(b.lines, r.source.value))
    ensures Inv(Charged(b, k, r))
  {
    var after, line := Charged(b, k, r), BudgetLine(b.budgets[k].id, r.amount, r.source);
    assert forall i :: 0 <= i < |b.budgets| ==> after.budgets[i].id == b.budgets[i].id;
    forall l | l in after.lines
      ensures exists i :: 0 <= i < |after.budgets| && after.budgets[i].id == l.budget
    {
      if l in b.lines {
        var i :| 0 <= i < |b.budgets| && b.budgets[i].id == l.budget;
        assert after.budgets[i].id == l.budget;
      } else {
        assert after.budgets[k].id == l.budget;
      }
    }
    forall i | 0 <= i < |after.budgets|
      ensures after.budgets[i].actual == SumBy(after.lines, OnBudget(after.budgets[i].id))
    {
      SumByAppend(b.lines, line, OnBudget(after.budgets[i].id));
    }
  }

  lemma StepKeepsInv(b: Books, op: Op, after: Books)
    requires Inv(b) && Admissible(b, op) && Step(b, op, after)
    ensures Inv(after)
  {
    match op
    case NewBudget(budget) =>
      forall l | l in b.lines
        ensures OnBudget(budget.id)(l) == 0
        ensures exists i :: 0 <= i < |after.budgets| && after.budgets[i].id == l.budget
      {
        var i :| 0 <= i < |b.budgets| && b.budgets[i].id == l.budget;
        assert after.budgets[i].id == l.budget;
      }
      SumByZero(b.lines, OnBudget(budget.id));
    case Report(r) =>
      if after != b {
        var k :| IsNewest(b.budgets, r.project, k) && after == Charged(b, k, r);
        ChargeKeepsInv(b, k, r);
      }
  }

  ghost predicate IsRun(ops: seq<Op>, trace: seq<Books>) {
    && |trace| == |ops| + 1 && trace[0] == Books([], [])
    && forall i, j :: 0 <= i && j == i + 1 && j <= |ops| ==>
         Admissible(trace[i], ops[i]) && Step(trace[i], ops[i], trace[j])
  }

  /** In every run each budget's actual amount is the sum of its lines, one line per source. */
  lemma {:induction false} RunKeepsInv(ops: seq<Op>, trace: seq<Books>, n: nat)
    requires IsRun(ops, trace) && n < |trace|
    ensures Inv(trace[n])
    ensures forall budget :: budget in trace[n].budgets ==> budget.actual == SumBy(trace[n].lines, OnBudget(budget.id))
    decreases n
  {
    if n > 0 {
      RunKeepsInv(ops, trace, n - 1);
      StepKeepsInv(trace[n - 1], ops[n - 1], trace[n]);
    }
  }

  // ---------------------------------------------------------------------------------------
  // Delivering a whole list of reports

  /** `trace` follows the delivery of the reports in order. */
  ghost predicate Deliveries(rs: seq<CostReport>, trace: seq<Books>) {
    && |trace| == |rs| + 1
    && forall i, j :: 0 <= i && j == i + 1 && j <= |rs| ==> Delivered(trace[i], rs[i], trace[j])
  }

  function LineAmount(): BudgetLine -> int {
    (l: BudgetLine) => l.amount
  }

  /** No report repeats the source of an earlier one or of a recorded line. */
  ghost predicate SourcesAreNew(lines: seq<BudgetLine>, rs: seq<CostReport>) {
    && (forall i :: 0 <= i < |rs| && rs[i].source.Some? ==> !HasSource(lines, rs[i].source.value))
    && (forall i, j :: 0 <= i < j < |rs| && rs[i].source.Some? ==> rs[i].source != rs[j].source)
  }

  /** Labour reports: a source, a positive amount and a budget to charge. */
  ghost predicate Chargeable(budgets: seq<Budget>, rs: seq<CostReport>) {
    forall r :: r in rs ==> r.source.Some? && r.amount > 0 && HasBudget(budgets, r.project)
  }

  lemma DeliveredKeepsBudgets(b: Books, r: CostReport, after: Books, project: string)
    requires Delivered(b, r, after)
    ensures HasBudget(after.budgets, project) <==> HasBudget(b.budgets, project)
  {
    if after != b {
      var k :| IsNewest(b.budgets, r.project, k) && after == Charged(b, k, r);
      assert forall i :: 0 <= i < |b.budgets| ==> b.budgets[i].project == after.budgets[i].project;
      if HasBudget(b.budgets, project) {
        var j :| IsNewest(b.budgets, project, j);
        assert IsNewest(after.budgets, project, j);
      }
      if HasBudget(after.budgets, project) {
        var j :| IsNewest(after.budgets, project, j);
        assert IsNewest(b.budgets, project, j);
      }
    }
  }

  lemma HasSourceAppend(lines: seq<BudgetLine>, l: BudgetLine, source: Source)
    ensures HasSource(lines + [l], source) <==> HasSource(lines, source) || l.source == Some(source)
  {
    if HasSource(lines, source) {
      var i :| 0 <= i < |lines| && lines[i].source == Some(source);
      assert (lines + [l])[i].source == Some(source);
    }
    assert (lines + [l])[|lines|] == l;
  }

  ghost predicate AmongSources(rs: seq<CostReport>, s: Source) {
    exists i :: 0 <= i < |rs| && rs[i].source == Some(s)
  }

  lemma AmongSourcesLast(rs: seq<CostReport>, s: Source)
    requires |rs| > 0
    ensures AmongSources(rs, s) <==> AmongSources(rs[..|rs| - 1], s) || rs[|rs| - 1].source == Some(s)
  {
    var front := rs[..|rs| - 1];
    if AmongSources(front, s) {
      var i :| 0 <= i < |front| && front[i].source == Some(s);
      assert rs[i].source == Some(s);
    }
    if AmongSources(rs, s) {
      var i :| 0 <= i < |rs| && rs[i].source == Some(s);
      assert i < |front| ==> front[i].source == Some(s);
    }
  }

  /** One chargeable report is recorded exactly when its source is new. */
  lemma DeliveryRecords(b: Books, r: CostReport, after: Books)
    requires Delivered(b, r, after) && r.source.Some? && HasBudget(b.budgets, r.project)
    ensures forall s :: HasSource(after.lines, s) <==> HasSource(b.lines, s) || r.source == Some(s)
    ensures SumBy(after.lines, LineAmount()) - SumBy(b.lines, LineAmount()) ==
            if HasSource(b.lines, r.source.value) then 0 else r.amount
  {
    if !HasSource(b.lines, r.source.value) {
      var k :| IsNewest(b.budgets, r.project, k) && after == Charged(b, k, r);
      var line := BudgetLine(b.budgets[k].id, r.amount, r.source);
      SumByAppend(b.lines, line, LineAmount());
      forall s
        ensures HasSource(after.lines, s) <==> HasSource(b.lines, s) || r.source == Some(s)
      {
        HasSourceAppend(b.lines, line, s);
      }
    }
  }

  lemma DeliveriesPrefix(rs: seq<CostReport>, trace: seq<Books>)
    requires |rs| > 0 && Deliveries(rs, trace) && Chargeable(trace[0].budgets, rs)
    ensures var front := rs[..|rs| - 1];
            Deliveries(front, trace[..|rs|]) && Chargeable(trace[0].budgets, front) && trace[..|rs|][0] == trace[0]
    ensures Delivered(trace[|rs| - 1], rs[|rs| - 1], trace[|rs|])
    ensures rs[|rs| - 1].source.Some? && rs[|rs| - 1].amount > 0 && HasBudget(trace[0].budgets, rs[|rs| - 1].project)
  {
    var front := rs[..|rs| - 1];
    assert forall x :: x in front ==> x in rs;
    assert rs[|rs| - 1] in rs;
  }

  /** Deliveries neither add nor remove a project's budget. */
  lemma {:induction false} DeliveriesKeepBudgets(rs: seq<CostReport>, trace: seq<Books>, project: string)
    requires Deliveries(rs, trace) && Chargeable(trace[0].budgets, rs)
    ensures HasBudget(trace[|rs|].budgets, project) <==> HasBudget(trace[0].budgets, project)
  {
    if |rs| > 0 {
      DeliveriesPrefix(rs, trace);
      DeliveriesKeepBudgets(rs[..|rs| - 1], trace[..|rs|], project);
      DeliveredKeepsBudgets(trace[|rs| - 1], rs[|rs| - 1], trace[|rs|], project);
    }
  }

  /** The sources recorded afterwards are those recorded before and those delivered. */
  lemma {:induction false} DeliveriesRecordSources(rs: seq<CostReport>, trace: seq<Books>, s: Source)
    requires Deliveries(rs, trace) && Chargeable(trace[0].budgets, rs)
    ensures HasSource(trace[|rs|].lines, s) <==> HasSource(trace[0].lines, s) || AmongSources(rs, s)
  {
    if |rs| > 0 {
      var front, r := rs[..|rs| - 1], rs[|rs| - 1];
      DeliveriesPrefix(rs, trace);
      DeliveriesRecordSources(front, trace[..|rs|], s);
      DeliveriesKeepBudgets(front, trace[..|rs|], r.project);
      DeliveryRecords(trace[|rs| - 1], r, trace[|rs|]);
      AmongSourcesLast(rs, s);
    }
  }

  /** No more than the delivered amounts is recorded, and all of it exactly when every source is new. */
  lemma {:induction false} DeliveriesRecord(rs: seq<CostReport>, trace: seq<Books>)
    requires Deliveries(rs, trace) && Chargeable(trace[0].budgets, rs)
    ensures var added := SumBy(trace[|rs|].lines, LineAmount()) - SumBy(trace[0].lines, LineAmount());
            && added <= SumBy(rs, AmountOf())
            && (added == SumBy(rs, AmountOf()) <==> SourcesAreNew(trace[0].lines, rs))
  {
    if |rs| > 0 {
      var front, r := rs[..|rs| - 1], rs[|rs| - 1];
      DeliveriesPrefix(rs, trace);
      DeliveriesRecord(front, trace[..|rs|]);
      DeliveriesRecordSources(front, trace[..|rs|], r.source.value);
      DeliveriesKeepBudgets(front, trace[..|rs|], r.project);
      DeliveryRecords(trace[|rs| - 1], r, trace[|rs|]);
      SourcesAreNewLast(trace[0].lines, rs);
    }
  }

  lemma SourcesAreNewLast(lines: seq<BudgetLine>, rs: seq<CostReport>)
    requires |rs| > 0 && rs[|rs| - 1].source.Some?
    ensures var front, r := rs[..|rs| - 1], rs[|rs| - 1];
            SourcesAreNew(lines, rs) <==>
            SourcesAreNew(lines, front) && !HasSource(lines, r.source.value) && !AmongSources(front, r.source.value)
  {
    var front, r := rs[..|rs| - 1], rs[|rs| - 1];
    assert forall i :: 0 <= i < |front| ==> front[i] == rs[i];
  }

  /**
   * Delivering chargeable reports records all of their amounts exactly when every source is new:
   * two allocations of one employee to the same project share a source, and one share is lost.
   */
  lemma AllCostsRecordedIff(rs: seq<CostReport>, trace: seq<Books>)
    requires Deliveries(rs, trace) && Chargeable(trace[0].budgets, rs)
    ensures SumBy(trace[|rs|].lines, LineAmount()) - SumBy(trace[0].lines, LineAmount()) == SumBy(rs, AmountOf())
            <==> SourcesAreNew(trace[0].lines, rs)
  {
    DeliveriesRecord(rs, trace);
  }

  lemma HalfOfAHundred()
    ensures Share(100, 1, 2) == 50
  {
    assert ExactShare(100, 1, 2) == 50.0;
    PayrollMath.RoundKeepsIntegers(50);
  }

  lemma OneMoreAllocation(front: seq<Allocation>, one: Allocation)
    ensures OfEmployee(front + [one], one.employee) == OfEmployee(front, one.employee) + [one]
  {
    assert (front + [one])[..|front|] == front;
  }

  lemma TwoAllocations(one: Allocation)
    ensures OfEmployee([one, one], one.employee) == [one, one]
    ensures SumBy([one, one], HoursOf()) == one.hours + one.hours
  {
    OneMoreAllocation([], one);
    OneMoreAllocation([one], one);
    assert [] + [one] == [one] && [one] + [one] == [one, one];
    SumByPair(one, one, HoursOf());
  }

  lemma TwoReports(p: Payslip, one: Allocation, total: int, amount: int)
    requires total > 0 && amount > 0 && Share(p.netPay, one.hours, total) == amount
    ensures var report := CostReport(one.project, amount, Some(Labour(p.id, one.project)));
            ReportsFor(p, [one, one], total) == [report, report]
  {
    ReportsForOneMore(p, [], one, total);
    ReportsForOneMore(p, [one], one, total);
    assert [] + [one] == [one] && [one] + [one] == [one, one];
  }

  /** The payroll of one employee with two allocations to one project: half of the net pay is lost. */
  lemma TwoAllocationsLoseAShare(payslip: string, employee: string, project: string, budget: string)
    ensures var p, one := Payslip(payslip, employee, 100), Allocation(employee, project, 1);
            var share := CostReport(project, 50, Some(Labour(payslip, project)));
            var start := Books([Budget(budget, project, 1000, 10.0, 0)], []);
            var charged := Books([Budget(budget, project, 1000, 10.0, 50)], [BudgetLine(budget, 50, share.source)]);
            && ReportsOfPayslip(p, [one, one]) == [share, share]
            && Delivered(start, share, charged) && Delivered(charged, share, charged)
            && SumBy(charged.lines, LineAmount()) == 50
  {
    HalfOfAHundred();
    TwoAllocations(Allocation(employee, project, 1));
    TwoReports(Payslip(payslip, employee, 100), Allocation(employee, project, 1), 2, 50);
    var share := CostReport(project, 50, Some(Labour(payslip, project)));
    var start := Books([Budget(budget, project, 1000, 10.0, 0)], []);
    var line := BudgetLine(budget, 50, share.source);
    assert IsNewest(start.budgets, project, 0);
    assert Charged(start, 0, share) == Books([Budget(budget, project, 1000, 10.0, 50)], [line]);
    assert [line][0].source == share.source;
    SumByAppend([], line, LineAmount());
    assert [] + [line] == [line];
  }

  /** A source-keyed report changes nothing once its line is recorded. */
  lemma RedeliveryChangesNothing(b: Books, r: CostReport, after: Books, again: Books)
    requires r.source.Some? && Delivered(b, r, after) && Delivered(after, r, again)
    requires HasBudget(b.budgets, r.project) || HasSource(b.lines, r.source.value)
    ensures again == after
  {
    if !HasSource(b.lines, r.source.value) {
      DeliveryRecords(b, r, after);
    }
  }

  // ---------------------------------------------------------------------------------------
  // When the sources of a payroll run are distinct

  ghost predicate OneAllocationPerProject(allocations: seq<Allocation>) {
    forall i, j :: 0 <= i < j < |allocations| ==>
      allocations[i].employee != allocations[j].employee || allocations[i].project != allocations[j].project
  }

  ghost predicate DistinctPayslips(payslips: seq<Payslip>) {
    forall i, j :: 0 <= i < j < |payslips| ==> payslips[i].id != payslips[j].id
  }

  lemma {:induction false} OwnAllocationsAreDistinct(allocations: seq<Allocation>, employee: string)
    requires OneAllocationPerProject(allocations)
    ensures OneAllocationPerProject(OfEmployee(allocations, employee))
  {
    if |allocations| > 0 {
      var front, a := allocations[..|allocations| - 1], allocations[|allocations| - 1];
      OwnAllocationsAreDistinct(front, employee);
      OfEmployeeIsSubset(front, employee);
      var own := OfEmployee(front, employee);
      forall i | 0 <= i < |own|
        ensures own[i].employee != a.employee || own[i].project != a.project
      {
        assert own[i] in front;
        var k :| 0 <= k < |front| && front[k] == own[i];
        assert allocations[k] == own[i];
      }
    }
  }

  lemma {:induction false} PayslipSources(p: Payslip, own: seq<Allocation>, total: int)
    requires total > 0 && OneAllocationPerProject(own) && forall a :: a in own ==> a.employee == p.employee
    ensures var rs := ReportsFor(p, own, total);
            && SourcesAreNew([], rs)
            && forall r :: r in rs ==>
                 r.source == Some(Labour(p.id, r.project)) && exists a :: a in own && a.project == r.project
  {
    if |own| > 0 {
      var front, a := own[..|own| - 1], own[|own| - 1];
      PayslipSources(p, front, total);
      assert forall x :: x in front ==> x in own;
      assert a in own;
      var before := ReportsFor(p, front, total);
      forall i | 0 <= i < |before|
        ensures before[i].project != a.project
      {
        assert before[i] in before;
        var x :| x in front && x.project == before[i].project;
        var k :| 0 <= k < |front| && front[k] == x;
        assert own[k] == x && own[|own| - 1] == a;
      }
    }
  }

  /** Every report is for one of the payslips. */
  ghost predicate NamesPayslips(rs: seq<CostReport>, payslips: seq<Payslip>) {
    forall r :: r in rs ==> exists p :: p in payslips && r.source == Some(Labour(p.id, r.project))
  }

  lemma OwnReports(p: Payslip, allocations: seq<Allocation>)
    requires OneAllocationPerProject(allocations)
    ensures SourcesAreNew([], ReportsOfPayslip(p, allocations))
    ensures forall r :: r in ReportsOfPayslip(p, allocations) ==> r.source == Some(Labour(p.id, r.project))
  {
    var own := OfEmployee(allocations, p.employee);
    OwnAllocationsAreDistinct(allocations, p.employee);
    OfEmployeeIsSubset(allocations, p.employee);
    if SumBy(own, HoursOf()) > 0 {
      PayslipSources(p, own, SumBy(own, HoursOf()));
    }
  }

  lemma OneMorePayslip(front: seq<Payslip>, p: Payslip, before: seq<CostReport>, mine: seq<CostReport>)
    requires forall q :: q in front ==> q.id != p.id
    requires SourcesAreNew([], before) && NamesPayslips(before, front)
    requires SourcesAreNew([], mine) && forall r :: r in mine ==> r.source == Some(Labour(p.id, r.project))
    ensures SourcesAreNew([], before + mine) && NamesPayslips(before + mine, front + [p])
  {
    forall i, j | 0 <= i < |before| && 0 <= j < |mine|
      ensures before[i].source != mine[j].source
    {
      assert before[i] in before && mine[j] in mine;
    }
    assert forall q :: q in front ==> q in front + [p];
    assert p in front + [p];
  }

  /** With one allocation per employee and project, a payroll run never repeats a source. */
  lemma {:induction false} RunSourcesAreDistinct(payslips: seq<Payslip>, allocations: seq<Allocation>)
    requires OneAllocationPerProject(allocations) && DistinctPayslips(payslips)
    ensures SourcesAreNew([], Reports(payslips, allocations)) && NamesPayslips(Reports(payslips, allocations), payslips)
  {
    if |payslips| > 0 {
      var front, p := payslips[..|payslips| - 1], payslips[|payslips| - 1];
      assert payslips == front + [p];
      RunSourcesAreDistinct(front, allocations);
      OwnReports(p, allocations);
      OneMorePayslip(front, p, Reports(front, allocations), ReportsOfPayslip(p, allocations));
    }
  }

  // ---------------------------------------------------------------------------------------
  // A payroll run that is announced again after a retry

  /** The payslips of all announcements of a run, one attempt after the other. */
  function AllPayslips(announced: seq<seq<Payslip>>): seq<Payslip> {
    if |announced| == 0 then [] else AllPayslips(announced[..|announced| - 1]) + announced[|announced| - 1]
  }

  lemma ReportsOfOneMore(payslips: seq<Payslip>, p: Payslip, allocations: seq<Allocation>)
    ensures Reports(payslips + [p], allocations) == Reports(payslips, allocations) + ReportsOfPayslip(p, allocations)
  {
    assert (payslips + [p])[..|payslips|] == payslips;
  }

  lemma ConcatIsAssociative<T>(a: seq<T>, b: seq<T>, c: seq<T>)
    ensures (a + b) + c == a + (b + c)
  {
  }

  lemma {:induction false} ReportsConcat(a: seq<Payslip>, b: seq<Payslip>, allocations: seq<Allocation>)
    ensures Reports(a + b, allocations) == Reports(a, allocations) + Reports(b, allocations)
  {
    if |b| == 0 {
      assert a + b == a;
    } else {
      var front, p := b[..|b| - 1], b[|b| - 1];
      assert b == front + [p];
      ReportsConcat(a, front, allocations);
      ConcatIsAssociative(a, front, [p]);
      ReportsOfOneMore(a + front, p, allocations);
      ReportsOfOneMore(front, p, allocations);
      ConcatIsAssociative(Reports(a, allocations), Reports(front, allocations), ReportsOfPayslip(p, allocations));
    }
  }

  lemma {:induction false} ReportsForArePositive(p: Payslip, own: seq<Allocation>, total: int)
    requires total > 0
    ensures forall r :: r in ReportsFor(p, own, total) ==> r.amount > 0
  {
    if |own| > 0 {
      ReportsForArePositive(p, own[..|own| - 1], total);
    }
  }

  lemma {:induction false} ReportsArePositive(payslips: seq<Payslip>, allocations: seq<Allocation>)
    ensures forall r :: r in Reports(payslips, allocations) ==> r.amount > 0
  {
    if |payslips| > 0 {
      var p := payslips[|payslips| - 1];
      var own := OfEmployee(allocations, p.employee);
      ReportsArePositive(payslips[..|payslips| - 1], allocations);
      if SumBy(own, HoursOf()) > 0 {
        ReportsForArePositive(p, own, SumBy(own, HoursOf()));
      }
    }
  }

  lemma {:induction false} PositiveSum(rs: seq<CostReport>)
    requires forall r :: r in rs ==> r.amount > 0
    ensures SumBy(rs, AmountOf()) >= 0 && (SumBy(rs, AmountOf()) == 0 <==> rs == [])
  {
    if |rs| > 0 {
      assert rs[|rs| - 1] in rs;
      PositiveSum(rs[..|rs| - 1]);
    }
  }

  /** No recorded line is keyed by one of the payslips. */
  ghost predicate UnknownPayslips(lines: seq<BudgetLine>, payslips: seq<Payslip>) {
    forall p, project :: p in payslips ==> !HasSource(lines, Labour(p.id, project))
  }

  /** With new payslip ids in every attempt, everything ever announced is recorded. */
  lemma AnnouncementsAreAllRecorded(
    announced: seq<seq<Payslip>>, allocations: seq<Allocation>, trace: seq<Books>)
    requires OneAllocationPerProject(allocations) && DistinctPayslips(AllPayslips(announced))
    requires var rs := Reports(AllPayslips(announced), allocations);
             Deliveries(rs, trace) && Chargeable(trace[0].budgets, rs)
    requires UnknownPayslips(trace[0].lines, AllPayslips(announced))
    ensures var rs := Reports(AllPayslips(announced), allocations);
            SumBy(trace[|rs|].lines, LineAmount()) == SumBy(trace[0].lines, LineAmount()) + SumBy(rs, AmountOf())
  {
    var payslips := AllPayslips(announced);
    var rs := Reports(payslips, allocations);
    RunSourcesAreDistinct(payslips, allocations);
    forall i | 0 <= i < |rs| && rs[i].source.Some?
      ensures !HasSource(trace[0].lines, rs[i].source.value)
    {
      assert rs[i] in rs;
    }
    AllCostsRecordedIff(rs, trace);
  }

  /**
   * A retry creates payslips with new ids, so its announcement is not a redelivery: the labour cost
   * of a run is recorded exactly once if and only if no earlier attempt had announced any.
   */
  lemma RunIsRecordedOnceIff(
    earlier: seq<seq<Payslip>>, last: seq<Payslip>, allocations: seq<Allocation>, trace: seq<Books>)
    requires OneAllocationPerProject(allocations) && DistinctPayslips(AllPayslips(earlier + [last]))
    requires var rs := Reports(AllPayslips(earlier + [last]), allocations);
             Deliveries(rs, trace) && Chargeable(trace[0].budgets, rs)
    requires UnknownPayslips(trace[0].lines, AllPayslips(earlier + [last]))
    ensures var n := |Reports(AllPayslips(earlier + [last]), allocations)|;
            SumBy(trace[n].lines, LineAmount()) - SumBy(trace[0].lines, LineAmount())
            == SumBy(Reports(last, allocations), AmountOf())
            <==> Reports(AllPayslips(earlier), allocations) == []
  {
    var before := Reports(AllPayslips(earlier), allocations);
    assert (earlier + [last])[..|earlier|] == earlier;
    AnnouncementsAreAllRecorded(earlier + [last], allocations, trace);
    ReportsConcat(AllPayslips(earlier), last, allocations);
    SumByConcat(before, Reports(last, allocations), AmountOf());
    ReportsArePositive(AllPayslips(earlier), allocations);
    PositiveSum(before);
  }

  lemma WholeOfAHundred()
    ensures Share(100, 1, 1) == 100
  {
    assert ExactShare(100, 1, 1) == 100.0;
    PayrollMath.RoundKeepsIntegers(100);
  }

  /** One employee with one allocation: everything goes to its project. */
  lemma OneReport(p: Payslip, one: Allocation)
    requires p == Payslip(p.id, one.employee, 100) && one.hours == 1
    ensures Reports([p], [one]) == [CostReport(one.project, 100, Some(Labour(p.id, one.project)))]
  {
    assert OfEmployee([one], one.employee) == [one] by {
      assert [one][..0] == [];
    }
    SumByAppend([], one, HoursOf());
    assert [] + [one] == [one];
    ReportsForOneMore(p, [], one, 1);
    WholeOfAHundred();
    ReportsOfOneMore([], p, [one]);
    assert [] + [p] == [p];
  }

  /** A budget charged with one more report of 100. */
  lemma ChargedOnce(budget: Budget, lines: seq<BudgetLine>, r: CostReport)
    requires r.amount == 100 && r.project == budget.project && r.source.Some? && !HasSource(lines, r.source.value)
    ensures Delivered(Books([budget], lines), r,
                      Books([budget.(actual := budget.actual + 100)], lines + [BudgetLine(budget.id, 100, r.source)]))
  {
    var b := Books([budget], lines);
    assert IsNewest(b.budgets, r.project, 0);
    assert Charged(b, 0, r) ==
           Books([budget.(actual := budget.actual + 100)], lines + [BudgetLine(budget.id, 100, r.source)]);
  }

  /** A retry after the announcement: net pay is 100, and 200 is recorded. */
  lemma RetryRecordsCostTwice(first: string, second: string, employee: string, project: string, budget: string)
    requires first != second
    ensures var one := Allocation(employee, project, 1);
            var p1, p2 := Payslip(first, employee, 100), Payslip(second, employee, 100);
            var r1, r2 := CostReport(project, 100, Some(Labour(first, project))),
                          CostReport(project, 100, Some(Labour(second, project)));
            var l1, l2 := BudgetLine(budget, 100, r1.source), BudgetLine(budget, 100, r2.source);
            var start, once, twice := Books([Budget(budget, project, 1000, 10.0, 0)], []),
                                      Books([Budget(budget, project, 1000, 10.0, 100)], [l1]),
                                      Books([Budget(budget, project, 1000, 10.0, 200)], [l1, l2]);
            && Reports([p1], [one]) == [r1] && Reports([p2], [one]) == [r2]
            && Delivered(start, r1, once) && Delivered(once, r2, twice)
            && SumBy(twice.lines, LineAmount()) == 200 == 2 * p1.netPay
  {
    var one := Allocation(employee, project, 1);
    OneReport(Payslip(first, employee, 100), one);
    OneReport(Payslip(second, employee, 100), one);
    var r1, r2 := CostReport(project, 100, Some(Labour(first, project))),
                  CostReport(project, 100, Some(Labour(second, project)));
    var l1, l2 := BudgetLine(budget, 100, r1.source), BudgetLine(budget, 100, r2.source);
    ChargedOnce(Budget(budget, project, 1000, 10.0, 0), [], r1);
    ChargedOnce(Budget(budget, project, 1000, 10.0, 100), [l1], r2);
    assert [] + [l1] == [l1] && [l1] + [l2] == [l1, l2];
    SumByPair(l1, l2, LineAmount());
  }
}
