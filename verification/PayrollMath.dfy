/**
 * Gross-to-net payroll arithmetic. Amounts are exact reals in units of 0.0001; rounding to four
 * decimals is rounding to an integer number of units.
 */
module PayrollMath {
  import opened Prelude

  datatype Statutory = Statutory(
    pfEmployeeRate: real, pfEmployerRate: real, esiEmployeeRate: real, esiEmployerRate: real,
    professionalTaxMonthly: real, gratuityRate: real, labourWelfareFund: real)

  /** Gross wages above this are exempt from ESI: 21000.0000. */
  const ESI_WAGE_CEILING: int := 210_000_000

  /** The settings of a tenant that has none of its own. */
  const DEFAULT_STATUTORY := Statutory(0.12, 0.12, 0.0075, 0.0325, 2_000_000.0, 0.0481, 200_000.0)

  /** The employee's side of a payslip, in units of 0.0001. */
  datatype EmployeeSide = EmployeeSide(
    grossPay: int, pfEmployee: int, esiEmployee: int, professionalTax: int, labourWelfareFund: int,
    incomeTax: int, totalEmployeeDeductions: int, netPay: int)

  /** Every amount of a payslip; the employer's amounts are informational. */
  datatype Amounts = Amounts(
    baseSalary: int, overtimePay: int, employee: EmployeeSide,
    pfEmployer: int, esiEmployer: int, gratuityAccrual: int)

  /**
   * Rounding as in ECMA-262 section 21.1.3.3, Number.prototype.toFixed: the nearest integer, and of
   * two equally near ones the larger in magnitude, because a negative value is negated first.
   */
  function Round(x: real): int {
    if x >= 0.0 then (x + 0.5).Floor else -((-x + 0.5).Floor)
  }

  predicate Within(error: real, bound: real) {
    -bound <= error <= bound
  }

  function Max(a: real, b: real): (m: real)
    ensures m >= a && m >= b && (m == a || m == b)
  {
    if a > b then a else b
  }

  function AtRate(base: real, rate: real): real {
    base * rate
  }

  /** ESI on rounded gross pay, at or below the ceiling only. */
  function EsiOn(gross: int, rate: real): int {
    if gross <= ESI_WAGE_CEILING then Round(AtRate(gross as real, rate)) else 0
  }

  /** Income tax on what remains of gross pay after the employee's provident fund. */
  function IncomeTax(gross: int, pf: int, taxRate: real): int {
    Round(AtRate(Max(0.0, (gross - pf) as real), taxRate))
  }

  function Deductions(gross: int, pf: int, s: Statutory, taxRate: real): int {
    var professionalTax := Round(s.professionalTaxMonthly);
    var labourWelfareFund := Round(s.labourWelfareFund);
    var esi, incomeTax := EsiOn(gross, s.esiEmployeeRate), IncomeTax(gross, pf, taxRate);
    Round((pf + esi + professionalTax + labourWelfareFund + incomeTax) as real)
  }

  function NetPay(gross: int, pf: int, s: Statutory, taxRate: real): int {
    Round((gross - Deductions(gross, pf, s, taxRate)) as real)
  }

  /** Gross to net, from unrounded gross pay and provident-fund contribution. */
  function EmployeePay(gross: real, pf: real, s: Statutory, taxRate: real): EmployeeSide {
    var grossPay, pfEmployee := Round(gross), Round(pf);
    EmployeeSide(
      grossPay, pfEmployee, EsiOn(grossPay, s.esiEmployeeRate),
      Round(s.professionalTaxMonthly), Round(s.labourWelfareFund), IncomeTax(grossPay, pfEmployee, taxRate),
      Deductions(grossPay, pfEmployee, s, taxRate), NetPay(grossPay, pfEmployee, s, taxRate))
  }

  /** The provident fund is charged on the base salary, everything else on gross pay. */
  function CalculatePayrollAmounts(base: real, overtime: real, s: Statutory, taxRate: real): Amounts {
    Amounts(
      Round(base), Round(overtime),
      EmployeePay(base + overtime, AtRate(base, s.pfEmployeeRate), s, taxRate),
      Round(AtRate(base, s.pfEmployerRate)), EsiOn(Round(base + overtime), s.esiEmployerRate),
      Round(AtRate(base, s.gratuityRate) / 12.0))
  }

  datatype TaxSlab = TaxSlab(minSalary: real, maxSalary: Option<real>, rate: real)

  const FALLBACK_RATE: real := 0.12

  predicate InSlab(salary: real, slab: TaxSlab) {
    salary >= slab.minSalary && (slab.maxSalary.Some? ==> salary <= slab.maxSalary.value)
  }

  ghost predicate IsFirstSlab(salary: real, slabs: seq<TaxSlab>, i: int) {
    0 <= i < |slabs| && InSlab(salary, slabs[i]) && forall j :: 0 <= j < i ==> !InSlab(salary, slabs[j])
  }

  /** The rate of the first slab that holds the salary. */
  function ResolveTaxSlabRate(salary: real, slabs: seq<TaxSlab>): (rate: real)
    ensures forall i :: IsFirstSlab(salary, slabs, i) ==> rate == slabs[i].rate
    ensures (forall i :: 0 <= i < |slabs| ==> !InSlab(salary, slabs[i])) ==> rate == FALLBACK_RATE
  {
    if |slabs| == 0 then FALLBACK_RATE
    else if InSlab(salary, slabs[0]) then slabs[0].rate
    else
      assert forall i :: IsFirstSlab(salary, slabs, i) ==> i > 0 && IsFirstSlab(salary, slabs[1..], i - 1);
      ResolveTaxSlabRate(salary, slabs[1..])
  }

  /** Two slabs that meet: the common bound belongs to the lower one, and outside both the fallback holds. */
  lemma AdjoiningSlabs(low: real, bound: real, lowRate: real, highRate: real, salary: real)
    ensures var slabs := [TaxSlab(low, Some(bound), lowRate), TaxSlab(bound, None, highRate)];
            ResolveTaxSlabRate(salary, slabs) ==
            if low <= salary <= bound then lowRate else if salary >= bound then highRate else 0.12
  {
    var slabs := [TaxSlab(low, Some(bound), lowRate), TaxSlab(bound, None, highRate)];
    assert slabs[1..] == [slabs[1]];
    assert [slabs[1]][1..] == [];
  }

  // ---------------------------------------------------------------------------------------
  // Rounding

  lemma RoundIsNear(x: real)
    ensures Within(Round(x) as real - x, 0.5)
  {
  }

  lemma RoundKeepsIntegers(n: int)
    ensures Round(n as real) == n
  {
    if n >= 0 {
      assert (n as real + 0.5).Floor == n;
    } else {
      assert ((-n) as real + 0.5).Floor == -n;
    }
  }

  lemma RoundIsMonotone(x: real, y: real)
    requires x <= y
    ensures Round(x) <= Round(y)
  {
  }

  /** Rounded values of numbers that are close stay close. */
  lemma RoundSpread(x: real, y: real)
    ensures Round(y) as real - Round(x) as real <= y - x + 1.0
  {
    RoundIsNear(x);
    RoundIsNear(y);
  }

  // ---------------------------------------------------------------------------------------
  // Laws of a payslip

  /** Rounding a sum of rounded amounts changes nothing. */
  lemma NetIsExact(gross: int, pf: int, s: Statutory, taxRate: real)
    ensures Deductions(gross, pf, s, taxRate) ==
            pf + EsiOn(gross, s.esiEmployeeRate) + Round(s.professionalTaxMonthly) + Round(s.labourWelfareFund)
            + IncomeTax(gross, pf, taxRate)
    ensures NetPay(gross, pf, s, taxRate) == gross - Deductions(gross, pf, s, taxRate)
  {
    RoundKeepsIntegers(
      pf + EsiOn(gross, s.esiEmployeeRate) + Round(s.professionalTaxMonthly) + Round(s.labourWelfareFund)
      + IncomeTax(gross, pf, taxRate));
    RoundKeepsIntegers(gross - Deductions(gross, pf, s, taxRate));
  }

  /** Gross pay is net pay plus the five employee deductions, to the unit. */
  lemma GrossIsNetPlusDeductions(gross: real, pf: real, s: Statutory, taxRate: real)
    ensures var a := EmployeePay(gross, pf, s, taxRate);
            && a.grossPay == a.netPay + a.totalEmployeeDeductions
            && a.totalEmployeeDeductions ==
               a.pfEmployee + a.esiEmployee + a.professionalTax + a.labourWelfareFund + a.incomeTax
  {
    NetIsExact(Round(gross), Round(pf), s, taxRate);
  }

  /** Net pay by the formula, with nothing rounded, not even before the ESI ceiling is tested. */
  function UnroundedNet(gross: real, pf: real, s: Statutory, taxRate: real): real {
    gross - pf - UnroundedEsi(gross, s.esiEmployeeRate)
    - s.professionalTaxMonthly - s.labourWelfareFund - UnroundedTax(gross, pf, taxRate)
  }

  function UnroundedEsi(gross: real, rate: real): real {
    if gross <= ESI_WAGE_CEILING as real then AtRate(gross, rate) else 0.0
  }

  function UnroundedTax(gross: real, pf: real, taxRate: real): real {
    AtRate(Max(0.0, gross - pf), taxRate)
  }

  lemma ProductIsNonNegative(x: real, y: real)
    requires x >= 0.0 && y >= 0.0
    ensures x * y >= 0.0
  {
  }

  lemma AtRateOfDifference(x: real, y: real, rate: real)
    ensures AtRate(x - y, rate) == AtRate(x, rate) - AtRate(y, rate)
  {
  }

  lemma AtRateIsShare(x: real, rate: real)
    requires x >= 0.0 && rate >= 0.0
    ensures AtRate(x, rate) >= 0.0 && (rate <= 1.0 ==> AtRate(x, rate) <= x)
  {
    ProductIsNonNegative(x, rate);
    if rate <= 1.0 {
      ProductIsNonNegative(x, 1.0 - rate);
      assert x * (1.0 - rate) == x - x * rate;
    }
  }

  lemma ScaledDifference(x: real, y: real, d: real, rate: real)
    requires -d <= x - y <= d && 0.0 <= rate <= 1.0
    ensures -d <= AtRate(x, rate) - AtRate(y, rate) <= d
  {
    AtRateOfDifference(x, y, rate);
    AtRateOfDifference(y, x, rate);
    if x >= y {
      AtRateIsShare(x - y, rate);
    } else {
      AtRateIsShare(y - x, rate);
    }
  }

  /** Rates are shares: neither deduction takes less than nothing or more than its base. */
  predicate RatesAreShares(s: Statutory, taxRate: real) {
    0.0 <= s.esiEmployeeRate <= 1.0 && 0.0 <= taxRate <= 1.0
  }

  /** Gross pay above the ceiling that rounding brings down to it: the payslip charges ESI on it. */
  predicate RoundsToCeiling(gross: real) {
    ESI_WAGE_CEILING as real < gross < ESI_WAGE_CEILING as real + 0.5
  }

  lemma CeilingTest(gross: real)
    ensures Round(gross) <= ESI_WAGE_CEILING <==> gross <= ESI_WAGE_CEILING as real || RoundsToCeiling(gross)
  {
    RoundIsNear(gross);
    RoundKeepsIntegers(ESI_WAGE_CEILING);
    if gross <= ESI_WAGE_CEILING as real {
      RoundIsMonotone(gross, ESI_WAGE_CEILING as real);
    }
  }

  /** The ESI that the payslip charges although the formula does not. */
  function UndueEsi(gross: real, rate: real): real {
    if RoundsToCeiling(gross) then AtRate(gross, rate) else 0.0
  }

  lemma EsiError(gross: real, rate: real)
    requires 0.0 <= rate <= 1.0
    ensures Within(EsiOn(Round(gross), rate) as real - (UnroundedEsi(gross, rate) + UndueEsi(gross, rate)), 1.0)
  {
    var g := Round(gross);
    CeilingTest(gross);
    RoundIsNear(gross);
    ScaledDifference(g as real, gross, 0.5, rate);
    RoundIsNear(AtRate(g as real, rate));
  }

  /** What is charged in the window exceeds any margin that ESI on the ceiling does. */
  lemma UndueEsiIsLarge(gross: real, rate: real, margin: real)
    requires rate >= 0.0 && AtRate(ESI_WAGE_CEILING as real, rate) > margin >= 0.0
    ensures if RoundsToCeiling(gross) then UndueEsi(gross, rate) > margin else UndueEsi(gross, rate) == 0.0
  {
    if RoundsToCeiling(gross) {
      AtRateIsShare(gross - ESI_WAGE_CEILING as real, rate);
      AtRateOfDifference(gross, ESI_WAGE_CEILING as real, rate);
    }
  }

  lemma TaxError(gross: real, pf: real, g: int, p: int, rate: real)
    requires Within(g as real - gross, 0.5) && Within(p as real - pf, 0.5) && 0.0 <= rate <= 1.0
    ensures Within(IncomeTax(g, p, rate) as real - UnroundedTax(gross, pf, rate), 1.5)
  {
    ScaledDifference(Max(0.0, (g - p) as real), Max(0.0, gross - pf), 1.0, rate);
    RoundIsNear(AtRate(Max(0.0, (g - p) as real), rate));
  }

  lemma ErrorsAddUp(
    g: int, p: int, e: int, pt: int, l: int, t: int, G: real, P: real, E: real, PT: real, L: real, T: real)
    requires Within(g as real - G, 0.5) && Within(p as real - P, 0.5) && Within(e as real - E, 1.0)
    requires Within(pt as real - PT, 0.5) && Within(l as real - L, 0.5) && Within(t as real - T, 1.5)
    ensures Within((g - (p + e + pt + l + t)) as real - (G - P - E - PT - L - T), 4.5)
  {
  }

  /**
   * Whatever the salary, net pay lies within four and a half units of the unrounded formula less
   * the ESI charged in the window just above the ceiling.
   */
  lemma NetIsCloseToFormula(gross: real, pf: real, s: Statutory, taxRate: real)
    requires RatesAreShares(s, taxRate)
    ensures Within(EmployeePay(gross, pf, s, taxRate).netPay as real
                   - (UnroundedNet(gross, pf, s, taxRate) - UndueEsi(gross, s.esiEmployeeRate)), 4.5)
  {
    var g, p := Round(gross), Round(pf);
    RoundIsNear(gross);
    RoundIsNear(pf);
    RoundIsNear(s.professionalTaxMonthly);
    RoundIsNear(s.labourWelfareFund);
    EsiError(gross, s.esiEmployeeRate);
    TaxError(gross, pf, g, p, taxRate);
    NetIsExact(g, p, s, taxRate);
    ErrorsAddUp(
      g, p, EsiOn(g, s.esiEmployeeRate), Round(s.professionalTaxMonthly), Round(s.labourWelfareFund),
      IncomeTax(g, p, taxRate),
      gross, pf, UnroundedEsi(gross, s.esiEmployeeRate) + UndueEsi(gross, s.esiEmployeeRate),
      s.professionalTaxMonthly, s.labourWelfareFund, UnroundedTax(gross, pf, taxRate));
  }

  lemma OffsetDecides(error: real, undue: real, bound: real, window: bool)
    requires Within(error + undue, bound) && if window then undue > 2.0 * bound else undue == 0.0
    ensures Within(error, bound) <==> !window
  {
  }

  /**
   * So net pay is close to the formula exactly outside that window, for any rate at which ESI on
   * the ceiling is more than nine units.
   */
  lemma NetIsCloseIff(gross: real, pf: real, s: Statutory, taxRate: real)
    requires RatesAreShares(s, taxRate) && AtRate(ESI_WAGE_CEILING as real, s.esiEmployeeRate) > 9.0
    ensures var a := EmployeePay(gross, pf, s, taxRate);
            Within(a.netPay as real - UnroundedNet(gross, pf, s, taxRate), 4.5) <==> !RoundsToCeiling(gross)
  {
    NetIsCloseToFormula(gross, pf, s, taxRate);
    UndueEsiIsLarge(gross, s.esiEmployeeRate, 9.0);
    OffsetDecides(
      EmployeePay(gross, pf, s, taxRate).netPay as real - UnroundedNet(gross, pf, s, taxRate),
      UndueEsi(gross, s.esiEmployeeRate), 4.5, RoundsToCeiling(gross));
  }

  /** The employee's side of a payslip against the formulas, in terms of base salary and overtime. */
  lemma EmployeeSideIsClose(base: real, overtime: real, s: Statutory, taxRate: real)
    requires RatesAreShares(s, taxRate) && AtRate(ESI_WAGE_CEILING as real, s.esiEmployeeRate) > 9.0
    ensures var a := CalculatePayrollAmounts(base, overtime, s, taxRate).employee;
            var net := UnroundedNet(base + overtime, AtRate(base, s.pfEmployeeRate), s, taxRate);
            && Within(a.grossPay as real - (base + overtime), 0.5)
            && (Within(a.netPay as real - net, 4.5) <==> !RoundsToCeiling(base + overtime))
  {
    RoundIsNear(base + overtime);
    NetIsCloseIff(base + overtime, AtRate(base, s.pfEmployeeRate), s, taxRate);
  }

  /** The same without a bound on the ESI rate, and what the deductions are. */
  lemma EmployeeSideMeaning(base: real, overtime: real, s: Statutory, taxRate: real)
    requires RatesAreShares(s, taxRate)
    ensures var a := CalculatePayrollAmounts(base, overtime, s, taxRate).employee;
            var net := UnroundedNet(base + overtime, AtRate(base, s.pfEmployeeRate), s, taxRate);
            && Within(a.grossPay as real - (base + overtime), 0.5)
            && Within(a.netPay as real - (net - UndueEsi(base + overtime, s.esiEmployeeRate)), 4.5)
            && a.totalEmployeeDeductions == a.grossPay - a.netPay
  {
    RoundIsNear(base + overtime);
    NetIsCloseToFormula(base + overtime, AtRate(base, s.pfEmployeeRate), s, taxRate);
    GrossIsNetPlusDeductions(base + overtime, AtRate(base, s.pfEmployeeRate), s, taxRate);
  }

  lemma EsiIsCloseIff(gross: real, rate: real)
    requires rate <= 1.0 && AtRate(ESI_WAGE_CEILING as real, rate) > 2.0 && rate >= 0.0
    ensures Within(EsiOn(Round(gross), rate) as real - UnroundedEsi(gross, rate), 1.0) <==> !RoundsToCeiling(gross)
  {
    EsiError(gross, rate);
    UndueEsiIsLarge(gross, rate, 2.0);
    OffsetDecides(
      UnroundedEsi(gross, rate) - EsiOn(Round(gross), rate) as real,
      UndueEsi(gross, rate), 1.0, RoundsToCeiling(gross));
  }

  /** The informational amounts lie near their formulas, the employer's ESI outside the window only. */
  lemma InformationalAmountsAreClose(base: real, overtime: real, s: Statutory, taxRate: real)
    requires 0.0 <= s.esiEmployerRate <= 1.0 && AtRate(ESI_WAGE_CEILING as real, s.esiEmployerRate) > 2.0
    ensures var a := CalculatePayrollAmounts(base, overtime, s, taxRate);
            && Within(a.baseSalary as real - base, 0.5) && Within(a.overtimePay as real - overtime, 0.5)
            && Within(a.pfEmployer as real - AtRate(base, s.pfEmployerRate), 0.5)
            && Within(a.gratuityAccrual as real - AtRate(base, s.gratuityRate) / 12.0, 0.5)
            && (Within(a.esiEmployer as real - UnroundedEsi(base + overtime, s.esiEmployerRate), 1.0)
                <==> !RoundsToCeiling(base + overtime))
  {
    RoundIsNear(base);
    RoundIsNear(overtime);
    RoundIsNear(AtRate(base, s.pfEmployerRate));
    RoundIsNear(AtRate(base, s.gratuityRate) / 12.0);
    EsiIsCloseIff(base + overtime, s.esiEmployerRate);
  }

  /** In the window the default settings cost the employee more than a million units, that is 100. */
  lemma WindowIsCostly(gross: real, pf: real, taxRate: real)
    requires RoundsToCeiling(gross) && 0.0 <= taxRate <= 1.0
    ensures EmployeePay(gross, pf, DEFAULT_STATUTORY, taxRate).netPay as real
            < UnroundedNet(gross, pf, DEFAULT_STATUTORY, taxRate) - 1_000_000.0
  {
    NetIsCloseToFormula(gross, pf, DEFAULT_STATUTORY, taxRate);
    UndueEsiIsLarge(gross, DEFAULT_STATUTORY.esiEmployeeRate, 1_500_000.0);
  }

  /** How a deduction at a rate grows with its base. */
  lemma DeductionGrowth(x: real, y: real, d: real, rate: real)
    requires 0.0 <= y - x <= d && rate >= 0.0
    ensures Round(AtRate(y, rate)) as real - Round(AtRate(x, rate)) as real <= AtRate(d, rate) + 1.0
  {
    AtRateIsShare(d - (y - x), rate);
    AtRateOfDifference(d, y - x, rate);
    AtRateOfDifference(y, x, rate);
    RoundSpread(AtRate(x, rate), AtRate(y, rate));
  }

  lemma ShareKept(d: real, a: real, b: real)
    requires d >= 0.0 && a + b <= 1.0
    ensures AtRate(d, a) + AtRate(d, b) <= d
  {
    ProductIsNonNegative(d, 1.0 - (a + b));
    assert d * (1.0 - (a + b)) == d - (d * a + d * b);
  }

  /** A deduction at a rate grows by at most that share of the growth of gross pay, plus a unit. */
  ghost predicate GrowsAtMost(change: int, grossChange: int, rate: real) {
    change as real <= AtRate(grossChange as real, rate) + 1.0
  }

  /** Crossing the ceiling drops the ESI deduction, which only helps the employee. */
  lemma EsiGrowth(g: int, h: int, rate: real)
    requires 0 <= g <= h && rate >= 0.0
    ensures GrowsAtMost(EsiOn(h, rate) - EsiOn(g, rate), h - g, rate)
  {
    DeductionGrowth(g as real, h as real, (h - g) as real, rate);
    AtRateIsShare(g as real, rate);
    AtRateIsShare((h - g) as real, rate);
    RoundIsMonotone(0.0, AtRate(g as real, rate));
  }

  lemma TaxGrowth(g: int, h: int, p: int, rate: real)
    requires g <= h && rate >= 0.0
    ensures GrowsAtMost(IncomeTax(h, p, rate) - IncomeTax(g, p, rate), h - g, rate)
  {
    DeductionGrowth(Max(0.0, (g - p) as real), Max(0.0, (h - p) as real), (h - g) as real, rate);
  }

  lemma GrowthAddsUp(esi: int, tax: int, n: int, a: real, b: real)
    requires n >= 0 && a + b <= 1.0 && GrowsAtMost(esi, n, a) && GrowsAtMost(tax, n, b)
    ensures esi + tax <= n + 2
  {
    ShareKept(n as real, a, b);
  }

  /** ESI and income tax together take no more than everything. */
  predicate RatesLeaveSomething(s: Statutory, taxRate: real) {
    s.esiEmployeeRate >= 0.0 && taxRate >= 0.0 && s.esiEmployeeRate + taxRate <= 1.0
  }

  lemma NetGrowth(g: int, h: int, p: int, s: Statutory, taxRate: real)
    requires 0 <= g <= h && RatesLeaveSomething(s, taxRate)
    ensures NetPay(h, p, s, taxRate) >= NetPay(g, p, s, taxRate) - 2
  {
    NetIsExact(g, p, s, taxRate);
    NetIsExact(h, p, s, taxRate);
    EsiGrowth(g, h, s.esiEmployeeRate);
    TaxGrowth(g, h, p, taxRate);
    GrowthAddsUp(
      EsiOn(h, s.esiEmployeeRate) - EsiOn(g, s.esiEmployeeRate),
      IncomeTax(h, p, taxRate) - IncomeTax(g, p, taxRate), h - g, s.esiEmployeeRate, taxRate);
  }

  /** More gross pay, at the same provident fund, never lowers net pay by more than two units. */
  lemma GrossNeverCostsMuch(gross: real, more: real, pf: real, s: Statutory, taxRate: real)
    requires 0.0 <= gross <= more && RatesLeaveSomething(s, taxRate)
    ensures EmployeePay(more, pf, s, taxRate).netPay >= EmployeePay(gross, pf, s, taxRate).netPay - 2
  {
    RoundIsMonotone(gross, more);
    RoundIsMonotone(0.0, gross);
    NetGrowth(Round(gross), Round(more), Round(pf), s, taxRate);
  }

  /**
   * So more overtime at the same base salary never costs more than two units, not even across
   * the ESI ceiling.
   */
  lemma OvertimeNeverCostsMuch(base: real, overtime: real, more: real, s: Statutory, taxRate: real)
    requires 0.0 <= base + overtime && overtime <= more && RatesLeaveSomething(s, taxRate)
    ensures CalculatePayrollAmounts(base, more, s, taxRate).employee.netPay >=
            CalculatePayrollAmounts(base, overtime, s, taxRate).employee.netPay - 2
  {
    GrossNeverCostsMuch(base + overtime, base + more, AtRate(base, s.pfEmployeeRate), s, taxRate);
  }
}
