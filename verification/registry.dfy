/**
 * The organisational directory, the employee registry and the compensation history
 * ledger that the bulk loader writes and the analytics read. Database ids are replaced by
 * natural keys: a department by its unique name, a division by (department, name), a group
 * by (division, name), an employee by its unique login.
 */
module Registry {
  import opened Wrappers
  import opened Calendar

  /** A division is unique by name within its department. */
  datatype DivisionKey = DivisionKey(department: string, name: string)

  /** A group is unique by name within its division. */
  datatype GroupKey = GroupKey(division: DivisionKey, name: string)

  /** The compensation snapshot: base salary and the three bonuses. */
  datatype Pay = Pay(salary: real, quarterlyBonus: real, monthlyBonus: real, yearlyBonus: real)

  const ZeroPay := Pay(0.0, 0.0, 0.0, 0.0)

  /** `current_income`: the sum of the four compensation components. */
  function CurrentIncome(p: Pay): real {
    p.salary + p.quarterlyBonus + p.monthlyBonus + p.yearlyBonus
  }

  datatype Employee = Employee(
    login: string,
    fullName: string,
    position: Option<string>,
    hireDate: Date,
    department: Option<string>,
    division: Option<DivisionKey>,
    group: Option<GroupKey>,
    functionalManager: Option<string>,
    lineManager: Option<string>,
    pay: Pay,
    isActive: bool)

  /** One ledger entry: the full before and after snapshot of a compensation change. */
  datatype HistoryEntry = HistoryEntry(
    employee: string,
    changeDate: Date,
    before: Pay,
    after: Pay,
    comment: string)

  // The derived columns of a ledger entry, always recomputed from before/after.

  function SalaryDiff(h: HistoryEntry): real { h.after.salary - h.before.salary }
  function QuarterlyBonusDiff(h: HistoryEntry): real { h.after.quarterlyBonus - h.before.quarterlyBonus }
  function MonthlyBonusDiff(h: HistoryEntry): real { h.after.monthlyBonus - h.before.monthlyBonus }
  function YearlyBonusDiff(h: HistoryEntry): real { h.after.yearlyBonus - h.before.yearlyBonus }
  function TotalIncomeBefore(h: HistoryEntry): real { CurrentIncome(h.before) }
  function TotalIncomeAfter(h: HistoryEntry): real { CurrentIncome(h.after) }
  function TotalIncomeDiff(h: HistoryEntry): real { TotalIncomeAfter(h) - TotalIncomeBefore(h) }

  /** The income difference of an entry is the sum of its four component differences,
      and it is zero when nothing changed. */
  lemma TotalIncomeDiffIsSumOfDiffs(h: HistoryEntry)
    ensures TotalIncomeDiff(h) == SalaryDiff(h) + QuarterlyBonusDiff(h) + MonthlyBonusDiff(h) + YearlyBonusDiff(h)
    ensures h.before == h.after ==> TotalIncomeDiff(h) == 0.0
  {
  }

  // Column sums over a sequence of employees.

  function TotalIncome(es: seq<Employee>): real {
    if es == [] then 0.0 else TotalIncome(es[..|es| - 1]) + CurrentIncome(es[|es| - 1].pay)
  }

  function TotalSalary(es: seq<Employee>): real {
    if es == [] then 0.0 else TotalSalary(es[..|es| - 1]) + es[|es| - 1].pay.salary
  }

  function TotalQuarterly(es: seq<Employee>): real {
    if es == [] then 0.0 else TotalQuarterly(es[..|es| - 1]) + es[|es| - 1].pay.quarterlyBonus
  }

  function TotalMonthly(es: seq<Employee>): real {
    if es == [] then 0.0 else TotalMonthly(es[..|es| - 1]) + es[|es| - 1].pay.monthlyBonus
  }

  function TotalYearly(es: seq<Employee>): real {
    if es == [] then 0.0 else TotalYearly(es[..|es| - 1]) + es[|es| - 1].pay.yearlyBonus
  }

  /**
   * The aggregate path agrees with the per-record path: summing `current_income` over a
   * collection equals adding up the four component columns summed separately.
   */
  lemma {:induction false} TotalIncomeIsSumOfColumns(es: seq<Employee>)
    ensures TotalIncome(es) == TotalSalary(es) + TotalQuarterly(es) + TotalMonthly(es) + TotalYearly(es)
  {
    if es != [] {
      TotalIncomeIsSumOfColumns(es[..|es| - 1]);
    }
  }
}
