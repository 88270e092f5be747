/**
 * The payroll (FOT) analytics: read-only reports over the employee registry and the
 * compensation ledger. Every report takes the records as query sets in database order
 * and computes with exact decimals; the conversions to `float` for the response are
 * presentation only and are not modelled.
 */
module Analytics {
  import opened Wrappers
  import opened Calendar
  import opened Registry
  import opened Queries

  /** `current_income` as a column. */
  function Income(e: Employee): real { CurrentIncome(e.pay) }

  /** `current_salary` as a column. */
  function Salary(e: Employee): real { e.pay.salary }

  /** The column sum over employees is the registry's income total. */
  lemma {:induction false} SumOfIncomes(es: seq<Employee>)
    ensures SumBy(es, Income) == TotalIncome(es)
  {
    if es != [] {
      SumOfIncomes(es[..|es| - 1]);
    }
  }

  // ---------------------------------------------------------------------------
  // get_department_delta

  /** The department's employees that are active. */
  function ActiveOf(department: string): Employee -> bool {
    (e: Employee) => e.isActive && e.department == Some(department)
  }

  function LoginsOf(es: seq<Employee>): set<string> {
    set e | e in es :: e.login
  }

  /** The ledger entries of the given employees dated in `year`. */
  function ChangedIn(logins: set<string>, year: int): HistoryEntry -> bool {
    (h: HistoryEntry) => h.employee in logins && h.changeDate.year == year
  }

  /** The growth in percent, guarded against a base that is zero or negative. */
  function Percent(delta: real, base: real): (p: real)
    ensures base <= 0.0 ==> p == 0.0
    ensures base > 0.0 ==> p * base == delta * 100.0
  {
    if base > 0.0 then delta / base * 100.0 else 0.0
  }

  datatype DepartmentDelta = DepartmentDelta(
    department: string,
    yearFrom: int,
    yearTo: int,
    totalIncomeFrom: real,
    totalIncomeTo: real,
    deltaTotal: real,
    deltaPercent: real,
    avgIncomeFrom: real,
    avgIncomeTo: real,
    deltaAvg: real,
    employeesCount: nat)

  /**
   * The year-over-year delta of a department: the ledger's `total_income_after` summed
   * and averaged over the entries of `yearFrom` and of `yearTo`, the `yearTo` side falling
   * back to the department's current payroll and then to zero.
   */
  function GetDepartmentDelta(departments: set<string>, es: seq<Employee>, hs: seq<HistoryEntry>,
                              department: string, yearFrom: int, yearTo: int): (r: Option<DepartmentDelta>)
    ensures r.None? <==> department !in departments
    ensures r.Some? ==>
              && r.value.department == department && r.value.yearFrom == yearFrom && r.value.yearTo == yearTo
              && r.value.employeesCount == |Where(es, ActiveOf(department))|
              && r.value.deltaTotal == r.value.totalIncomeTo - r.value.totalIncomeFrom
              && r.value.deltaAvg == r.value.avgIncomeTo - r.value.avgIncomeFrom
              && r.value.deltaPercent == Percent(r.value.deltaTotal, r.value.totalIncomeFrom)
  {
    if department !in departments then None
    else Some(MembersDelta(department, Where(es, ActiveOf(department)), hs, yearFrom, yearTo))
  }

  /**
   * The delta computed from the department's active employees: the `yearFrom` side is the
   * ledger's sum and mean of `total_income_after` over that year (zero without entries); the
   * `yearTo` side is the same when its sum is non-zero, and otherwise the current payroll's
   * sum and mean (zero without members).
   */
  function MembersDelta(department: string, members: seq<Employee>, hs: seq<HistoryEntry>,
                        yearFrom: int, yearTo: int): (r: DepartmentDelta)
    ensures r.department == department && r.yearFrom == yearFrom && r.yearTo == yearTo
    ensures r.employeesCount == |members|
    ensures var before := Where(hs, ChangedIn(LoginsOf(members), yearFrom));
            r.totalIncomeFrom == SumBy(before, TotalIncomeAfter) && r.avgIncomeFrom == Mean(before, TotalIncomeAfter)
    ensures var after := Where(hs, ChangedIn(LoginsOf(members), yearTo));
            SumBy(after, TotalIncomeAfter) != 0.0 ==>
              r.totalIncomeTo == SumBy(after, TotalIncomeAfter) && r.avgIncomeTo == Mean(after, TotalIncomeAfter)
    ensures var after := Where(hs, ChangedIn(LoginsOf(members), yearTo));
            SumBy(after, TotalIncomeAfter) == 0.0 ==>
              r.totalIncomeTo == SumBy(members, Income) && r.avgIncomeTo == Mean(members, Income)
    ensures r.deltaTotal == r.totalIncomeTo - r.totalIncomeFrom
    ensures r.deltaAvg == r.avgIncomeTo - r.avgIncomeFrom
    ensures r.deltaPercent == Percent(r.deltaTotal, r.totalIncomeFrom)
  {
    var logins := LoginsOf(members);
    var before := Where(hs, ChangedIn(logins, yearFrom));
    var after := Where(hs, ChangedIn(logins, yearTo));
    SumOr(before, TotalIncomeAfter, 0.0);
    SumOr(members, Income, 0.0);
    AvgOr(before, TotalIncomeAfter, 0.0);
    AvgOr(members, Income, 0.0);
    var totalFrom := OrElse(SqlSum(before, TotalIncomeAfter), 0.0);
    var currentTotal := OrElse(SqlSum(members, Income), 0.0);
    var currentAvg := OrElse(SqlAvg(members, Income), 0.0);
    SumOr(after, TotalIncomeAfter, currentTotal);
    AvgOr(after, TotalIncomeAfter, currentAvg);
    var totalTo := OrElse(SqlSum(after, TotalIncomeAfter), currentTotal);
    var avgFrom := OrElse(SqlAvg(before, TotalIncomeAfter), 0.0);
    var avgTo := OrElse(SqlAvg(after, TotalIncomeAfter), currentAvg);
    var deltaTotal := totalTo - totalFrom;
    DepartmentDelta(
      department, yearFrom, yearTo, totalFrom, totalTo, deltaTotal,
      Percent(deltaTotal, totalFrom),
      avgFrom, avgTo, avgTo - avgFrom, |members|)
  }

  /** Employees that are inactive or belong to another department do not affect the delta. */
  lemma {:induction false} DeltaSeesOnlyActiveMembers(departments: set<string>, es: seq<Employee>, hs: seq<HistoryEntry>,
                                                      department: string, yearFrom: int, yearTo: int)
    ensures GetDepartmentDelta(departments, es, hs, department, yearFrom, yearTo)
         == GetDepartmentDelta(departments, Where(es, ActiveOf(department)), hs, department, yearFrom, yearTo)
  {
    WhereTwice(es, ActiveOf(department));
  }

  /**
   * The `yearTo` total is the ledger's `total_income_after` sum for that year when it is
   * non-zero, and otherwise the department's current payroll (zero when nobody is active).
   */
  lemma {:induction false} DeltaTotalToFallsBack(departments: set<string>, es: seq<Employee>, hs: seq<HistoryEntry>,
                                                  department: string, yearFrom: int, yearTo: int)
    requires department in departments
    ensures var members := Where(es, ActiveOf(department));
            var ledger := SumBy(Where(hs, ChangedIn(LoginsOf(members), yearTo)), TotalIncomeAfter);
            GetDepartmentDelta(departments, es, hs, department, yearFrom, yearTo).value.totalIncomeTo
              == if ledger != 0.0 then ledger else TotalIncome(members)
  {
    var members := Where(es, ActiveOf(department));
    SumOfIncomes(members);
  }

  /**
   * The `yearFrom` total is the ledger's `total_income_after` sum over that year, and the
   * `yearFrom` average its mean; both are zero when the year has no entries.
   */
  lemma DeltaFromIsLedger(departments: set<string>, es: seq<Employee>, hs: seq<HistoryEntry>,
                          department: string, yearFrom: int, yearTo: int)
    requires department in departments
    ensures var before := Where(hs, ChangedIn(LoginsOf(Where(es, ActiveOf(department))), yearFrom));
            var d := GetDepartmentDelta(departments, es, hs, department, yearFrom, yearTo).value;
            d.totalIncomeFrom == SumBy(before, TotalIncomeAfter)
            && d.avgIncomeFrom == (if before == [] then 0.0 else SumBy(before, TotalIncomeAfter) / (|before| as real))
  {
  }

  /**
   * The `yearTo` average follows the rule of the `yearTo` total: the ledger's mean for that
   * year when the ledger sum is non-zero, otherwise the mean current payroll of the active
   * members, and zero when nobody is active.
   */
  lemma {:induction false} DeltaAvgToFallsBack(departments: set<string>, es: seq<Employee>, hs: seq<HistoryEntry>,
                                                department: string, yearFrom: int, yearTo: int)
    requires department in departments
    ensures var members := Where(es, ActiveOf(department));
            var after := Where(hs, ChangedIn(LoginsOf(members), yearTo));
            var ledger := SumBy(after, TotalIncomeAfter);
            GetDepartmentDelta(departments, es, hs, department, yearFrom, yearTo).value.avgIncomeTo
              == if ledger != 0.0 then ledger / (|after| as real)
                 else if members != [] then TotalIncome(members) / (|members| as real)
                 else 0.0
  {
    var members := Where(es, ActiveOf(department));
    SumOfIncomes(members);
  }

  // ---------------------------------------------------------------------------
  // get_custom_report

  /** The recognised filters; an absent one is not applied. Each holds the natural key
      of the record the filter names. */
  datatype Filters = Filters(
    department: Option<string>,
    division: Option<DivisionKey>,
    group: Option<GroupKey>,
    dateFrom: Option<Date>,
    dateTo: Option<Date>)

  const NoFilters := Filters(None, None, None, None, None)

  function IsActive(e: Employee): bool { e.isActive }

  function InDepartment(d: Option<string>): Employee -> bool { (e: Employee) => e.department == d }
  function InDivision(d: Option<DivisionKey>): Employee -> bool { (e: Employee) => e.division == d }
  function InGroup(g: Option<GroupKey>): Employee -> bool { (e: Employee) => e.group == g }
  function HiredFrom(d: Date): Employee -> bool { (e: Employee) => OnOrBefore(d, e.hireDate) }
  function HiredUntil(d: Date): Employee -> bool { (e: Employee) => OnOrBefore(e.hireDate, d) }

  /** The `filter` calls the report makes, in order: active employees, then each present filter. */
  function FilterSteps(f: Filters): seq<Employee -> bool> {
    [IsActive]
    + (if f.department.Some? then [InDepartment(f.department)] else [])
    + (if f.division.Some? then [InDivision(f.division)] else [])
    + (if f.group.Some? then [InGroup(f.group)] else [])
    + (if f.dateFrom.Some? then [HiredFrom(f.dateFrom.value)] else [])
    + (if f.dateTo.Some? then [HiredUntil(f.dateTo.value)] else [])
  }

  /** An employee the filters admit: active, and matching every filter that is present. */
  predicate Admits(f: Filters, e: Employee) {
    && e.isActive
    && (f.department.Some? ==> e.department == f.department)
    && (f.division.Some? ==> e.division == f.division)
    && (f.group.Some? ==> e.group == f.group)
    && (f.dateFrom.Some? ==> OnOrBefore(f.dateFrom.value, e.hireDate))
    && (f.dateTo.Some? ==> OnOrBefore(e.hireDate, f.dateTo.value))
  }

  function AdmittedBy(f: Filters): Employee -> bool { (e: Employee) => Admits(f, e) }

  /** The filter chain keeps exactly the employees every filter admits, in order. */
  lemma {:induction false} FiltersAreConjunctive(es: seq<Employee>, f: Filters)
    ensures Chain(es, FilterSteps(f)) == Where(es, AdmittedBy(f))
  {
    forall e: Employee
      ensures AdmittedBy(f)(e) == AllHold(FilterSteps(f), e)
    {
      AdmitsIsAllSteps(f, e);
    }
    ChainIsConjunction(es, FilterSteps(f), AdmittedBy(f));
  }

  lemma {:induction false} AdmitsIsAllSteps(f: Filters, e: Employee)
    ensures Admits(f, e) == AllHold(FilterSteps(f), e)
  {
    var t0: seq<Employee -> bool> := [IsActive];
    var t1: seq<Employee -> bool> := if f.department.Some? then [InDepartment(f.department)] else [];
    var t2: seq<Employee -> bool> := if f.division.Some? then [InDivision(f.division)] else [];
    var t3: seq<Employee -> bool> := if f.group.Some? then [InGroup(f.group)] else [];
    var t4: seq<Employee -> bool> := if f.dateFrom.Some? then [HiredFrom(f.dateFrom.value)] else [];
    var t5: seq<Employee -> bool> := if f.dateTo.Some? then [HiredUntil(f.dateTo.value)] else [];
    assert FilterSteps(f) == t0 + t1 + t2 + t3 + t4 + t5;
    assert AllHold(t0, e) == e.isActive by { assert t0[0](e) == e.isActive; }
    assert AllHold(t1, e) == (f.department.Some? ==> e.department == f.department) by {
      if f.department.Some? { assert t1[0](e) == (e.department == f.department); }
    }
    assert AllHold(t2, e) == (f.division.Some? ==> e.division == f.division) by {
      if f.division.Some? { assert t2[0](e) == (e.division == f.division); }
    }
    assert AllHold(t3, e) == (f.group.Some? ==> e.group == f.group) by {
      if f.group.Some? { assert t3[0](e) == (e.group == f.group); }
    }
    assert AllHold(t4, e) == (f.dateFrom.Some? ==> OnOrBefore(f.dateFrom.value, e.hireDate)) by {
      if f.dateFrom.Some? { assert t4[0](e) == OnOrBefore(f.dateFrom.value, e.hireDate); }
    }
    assert AllHold(t5, e) == (f.dateTo.Some? ==> OnOrBefore(e.hireDate, f.dateTo.value)) by {
      if f.dateTo.Some? { assert t5[0](e) == OnOrBefore(e.hireDate, f.dateTo.value); }
    }
    AllHoldAppend(t0, t1, e);
    AllHoldAppend(t0 + t1, t2, e);
    AllHoldAppend(t0 + t1 + t2, t3, e);
    AllHoldAppend(t0 + t1 + t2 + t3, t4, e);
    AllHoldAppend(t0 + t1 + t2 + t3 + t4, t5, e);
  }

  lemma {:induction false} AllHoldAppend<T>(a: seq<T -> bool>, b: seq<T -> bool>, x: T)
    ensures AllHold(a + b, x) == (AllHold(a, x) && AllHold(b, x))
  {
    if AllHold(a, x) && AllHold(b, x) {
      forall i | 0 <= i < |a + b|
        ensures (a + b)[i](x)
      {
        if i < |a| {
          assert (a + b)[i] == a[i];
        } else {
          assert (a + b)[i] == b[i - |a|];
        }
      }
    }
    if AllHold(a + b, x) {
      forall i | 0 <= i < |a|
        ensures a[i](x)
      {
        assert (a + b)[i] == a[i];
      }
      forall i | 0 <= i < |b|
        ensures b[i](x)
      {
        assert (a + b)[|a| + i] == b[i];
      }
    }
  }

  /** The metrics the report can compute. */
  datatype Metric = IncomeTotal | IncomeAvg | Headcount | SalaryTotal | SalaryAvg

  function MetricName(m: Metric): string {
    match m
    case IncomeTotal => "total_income"
    case IncomeAvg => "avg_income"
    case Headcount => "count"
    case SalaryTotal => "total_salary"
    case SalaryAvg => "avg_salary"
  }

  /** The whitelist, in the order the report adds annotations. */
  const MetricOrder: seq<Metric> := [IncomeTotal, IncomeAvg, Headcount, SalaryTotal, SalaryAvg]

  const DefaultMetrics: seq<string> := ["total_income", "count"]

  function MetricNamed(names: seq<string>): Metric -> bool {
    m => MetricName(m) in names
  }

  /** The annotations the report builds: the whitelisted metrics that are requested, in
      whitelist order; any other requested name has no effect. */
  function Annotations(metrics: seq<string>): (ms: seq<Metric>)
    ensures ms == Where(MetricOrder, MetricNamed(metrics))
  {
    var ms := (if "total_income" in metrics then [IncomeTotal] else [])
              + (if "avg_income" in metrics then [IncomeAvg] else [])
              + (if "count" in metrics then [Headcount] else [])
              + (if "total_salary" in metrics then [SalaryTotal] else [])
              + (if "avg_salary" in metrics then [SalaryAvg] else []);
    var keep := MetricNamed(metrics);
    assert keep(IncomeTotal) == ("total_income" in metrics) && keep(IncomeAvg) == ("avg_income" in metrics)
        && keep(Headcount) == ("count" in metrics) && keep(SalaryTotal) == ("total_salary" in metrics)
        && keep(SalaryAvg) == ("avg_salary" in metrics);
    WhereOfFive(IncomeTotal, IncomeAvg, Headcount, SalaryTotal, SalaryAvg, keep);
    ms
  }

  /** The columns the report can group by. */
  datatype Column = DepartmentName | DivisionName | GroupName

  function ColumnName(c: Column): string {
    match c
    case DepartmentName => "department"
    case DivisionName => "division"
    case GroupName => "group"
  }

  const ColumnOrder: seq<Column> := [DepartmentName, DivisionName, GroupName]

  function ColumnNamed(names: seq<string>): Column -> bool {
    c => ColumnName(c) in names
  }

  /** The `values(...)` columns: the recognised group-by names, always in the order
      department, division, group, whatever order they were given in. */
  function Columns(groupBy: seq<string>): (cs: seq<Column>)
    ensures cs == Where(ColumnOrder, ColumnNamed(groupBy))
  {
    var cs := (if "department" in groupBy then [DepartmentName] else [])
              + (if "division" in groupBy then [DivisionName] else [])
              + (if "group" in groupBy then [GroupName] else []);
    WhereOfThree(DepartmentName, DivisionName, GroupName, ColumnNamed(groupBy));
    cs
  }

  /** Filtering a list of three, one element at a time. */
  lemma WhereOfThree<T>(x0: T, x1: T, x2: T, keep: T -> bool)
    ensures Where([x0, x1, x2], keep)
         == (if keep(x0) then [x0] else []) + (if keep(x1) then [x1] else []) + (if keep(x2) then [x2] else [])
  {
    WhereAppend([], x0, keep);
    WhereAppend([x0], x1, keep);
    assert [x0] + [x1] == [x0, x1];
    WhereAppend([x0, x1], x2, keep);
    assert [x0, x1] + [x2] == [x0, x1, x2];
  }

  /** Filtering a list of five, one element at a time. */
  lemma WhereOfFive<T>(x0: T, x1: T, x2: T, x3: T, x4: T, keep: T -> bool)
    ensures Where([x0, x1, x2, x3, x4], keep)
         == (if keep(x0) then [x0] else []) + (if keep(x1) then [x1] else []) + (if keep(x2) then [x2] else [])
            + (if keep(x3) then [x3] else []) + (if keep(x4) then [x4] else [])
  {
    WhereOfThree(x0, x1, x2, keep);
    WhereAppend([x0, x1, x2], x3, keep);
    assert [x0, x1, x2] + [x3] == [x0, x1, x2, x3];
    WhereAppend([x0, x1, x2, x3], x4, keep);
    assert [x0, x1, x2, x3] + [x4] == [x0, x1, x2, x3, x4];
  }

  /** The value of one grouping column for an employee: the name of its record, or NULL. */
  function ColumnValue(c: Column, e: Employee): Option<string> {
    match c
    case DepartmentName => e.department
    case DivisionName => if e.division.Some? then Some(e.division.value.name) else None
    case GroupName => if e.group.Some? then Some(e.group.value.name) else None
  }

  /** The grouping key of an employee: its values of the given columns. */
  function KeyOf(cs: seq<Column>): Employee -> seq<Option<string>> {
    e => seq(|cs|, i requires 0 <= i < |cs| => ColumnValue(cs[i], e))
  }

  datatype Value = Amount(amount: Option<real>) | Number(n: nat)

  function Measure(m: Metric, es: seq<Employee>): Value {
    match m
    case IncomeTotal => Amount(SqlSum(es, Income))
    case IncomeAvg => Amount(SqlAvg(es, Income))
    case Headcount => Number(|es|)
    case SalaryTotal => Amount(SqlSum(es, Salary))
    case SalaryAvg => Amount(SqlAvg(es, Salary))
  }

  datatype Measured = Measured(metric: Metric, value: Value)

  function Measures(ms: seq<Metric>, es: seq<Employee>): seq<Measured> {
    seq(|ms|, i requires 0 <= i < |ms| => Measured(ms[i], Measure(ms[i], es)))
  }

  datatype ReportRow = ReportRow(key: seq<Option<string>>, values: seq<Measured>)

  datatype ReportData = Aggregate(values: seq<Measured>) | Rows(rows: seq<ReportRow>)

  datatype CustomReport = CustomReport(filters: Filters, groupBy: seq<string>, metrics: seq<string>, data: ReportData)

  /**
   * `values(*columns).annotate(**annotations)`: one row per distinct key, in order of first
   * appearance, with the annotations over the employees of that key. With no annotation
   * there is no grouping, and every employee gives a row of its column values.
   */
  function GroupedRows(cs: seq<Column>, ms: seq<Metric>, xs: seq<Employee>): (rows: seq<ReportRow>)
    ensures ms == [] ==> |rows| == |xs|
    ensures ms == [] ==> forall i :: 0 <= i < |xs| ==> rows[i].key == KeyOf(cs)(xs[i]) && rows[i].values == []
    ensures ms != [] ==>
              && (forall i, j :: 0 <= i < j < |rows| ==> rows[i].key != rows[j].key)
              && (forall e :: e in xs ==> exists i :: 0 <= i < |rows| && rows[i].key == KeyOf(cs)(e))
              && (forall i :: 0 <= i < |rows| ==>
                    Where(xs, KeyIs(KeyOf(cs), rows[i].key)) != []
                    && rows[i].values == Measures(ms, Where(xs, KeyIs(KeyOf(cs), rows[i].key))))
  {
    if ms == [] then
      seq(|xs|, i requires 0 <= i < |xs| => ReportRow(KeyOf(cs)(xs[i]), []))
    else
      GroupedCovers(KeyOf(cs), ms, xs);
      Grouped(KeyOf(cs), ms, xs)
  }

  /** One row per distinct key, in order of first appearance, measuring that key's employees. */
  function Grouped(key: Employee -> seq<Option<string>>, ms: seq<Metric>, xs: seq<Employee>): seq<ReportRow> {
    var ks := Distinct(KeysOf(xs, key));
    seq(|ks|, i requires 0 <= i < |ks| => ReportRow(ks[i], Measures(ms, Where(xs, KeyIs(key, ks[i])))))
  }

  /** The grouped rows have distinct keys, cover every employee and measure non-empty groups. */
  lemma GroupedCovers(key: Employee -> seq<Option<string>>, ms: seq<Metric>, xs: seq<Employee>)
    ensures var rows := Grouped(key, ms, xs);
            && (forall i, j :: 0 <= i < j < |rows| ==> rows[i].key != rows[j].key)
            && (forall e :: e in xs ==> exists i :: 0 <= i < |rows| && rows[i].key == key(e))
            && (forall i :: 0 <= i < |rows| ==>
                  Where(xs, KeyIs(key, rows[i].key)) != []
                  && rows[i].values == Measures(ms, Where(xs, KeyIs(key, rows[i].key))))
  {
    var ks := Distinct(KeysOf(xs, key));
    var rows := Grouped(key, ms, xs);
    assert forall i :: 0 <= i < |ks| ==> rows[i].key == ks[i];
    forall e | e in xs
      ensures exists i :: 0 <= i < |rows| && rows[i].key == key(e)
    {
      KeyOfEachRecord(xs, key, e);
      var i :| 0 <= i < |ks| && ks[i] == key(e);
      assert rows[i].key == key(e);
    }
    forall i | 0 <= i < |rows|
      ensures Where(xs, KeyIs(key, rows[i].key)) != []
    {
      GroupNotEmpty(xs, key, ks[i]);
    }
  }

  /**
   * `get_custom_report`: the active employees the filters admit, measured by the requested
   * metrics (by default `total_income` and `count`), as one aggregate when no recognised
   * group-by column is named and as grouped rows otherwise.
   */
  function GetCustomReport(es: seq<Employee>, filters: Filters, groupBy: Option<seq<string>>,
                           metrics: Option<seq<string>>): (r: CustomReport)
    ensures r.metrics == (if metrics.None? then DefaultMetrics else metrics.value)
    ensures r.groupBy == (if groupBy.None? then [] else groupBy.value) && r.filters == filters
    ensures r.data.Aggregate? <==> Columns(r.groupBy) == []
    ensures r.data.Aggregate? ==>
              r.data.values == Measures(Annotations(r.metrics), Where(es, AdmittedBy(filters)))
    ensures r.data.Rows? ==>
              r.data.rows == GroupedRows(Columns(r.groupBy), Annotations(r.metrics), Where(es, AdmittedBy(filters)))
  {
    var groupBy := groupBy.GetOr([]);
    var metrics := metrics.GetOr(DefaultMetrics);
    var xs := Chain(es, FilterSteps(filters));
    FiltersAreConjunctive(es, filters);
    var ms := Annotations(metrics);
    var cs := Columns(groupBy);
    CustomReport(filters, groupBy, metrics, if cs == [] then Aggregate(Measures(ms, xs)) else Rows(GroupedRows(cs, ms, xs)))
  }

  // ---------------------------------------------------------------------------
  // get_salary_history_report

  /** The ledger report's filters; the department is the employee's current one. */
  datatype HistoryFilters = HistoryFilters(
    employee: Option<string>,
    department: Option<string>,
    dateFrom: Option<Date>,
    dateTo: Option<Date>)

  function ByEmployee(login: string): HistoryEntry -> bool { (h: HistoryEntry) => h.employee == login }

  function ByDepartment(employees: map<string, Employee>, d: Option<string>): HistoryEntry -> bool {
    (h: HistoryEntry) => h.employee in employees && employees[h.employee].department == d
  }

  function ChangedFrom(d: Date): HistoryEntry -> bool { (h: HistoryEntry) => OnOrBefore(d, h.changeDate) }
  function ChangedUntil(d: Date): HistoryEntry -> bool { (h: HistoryEntry) => OnOrBefore(h.changeDate, d) }

  function HistorySteps(employees: map<string, Employee>, f: HistoryFilters): seq<HistoryEntry -> bool> {
    (if f.employee.Some? then [ByEmployee(f.employee.value)] else [])
    + (if f.department.Some? then [ByDepartment(employees, f.department)] else [])
    + (if f.dateFrom.Some? then [ChangedFrom(f.dateFrom.value)] else [])
    + (if f.dateTo.Some? then [ChangedUntil(f.dateTo.value)] else [])
  }

  /** A ledger entry the filters admit; both date bounds are inclusive. */
  predicate HistoryAdmits(employees: map<string, Employee>, f: HistoryFilters, h: HistoryEntry) {
    && (f.employee.Some? ==> h.employee == f.employee.value)
    && (f.department.Some? ==> h.employee in employees && employees[h.employee].department == f.department)
    && (f.dateFrom.Some? ==> OnOrBefore(f.dateFrom.value, h.changeDate))
    && (f.dateTo.Some? ==> OnOrBefore(h.changeDate, f.dateTo.value))
  }

  function HistoryAdmittedBy(employees: map<string, Employee>, f: HistoryFilters): HistoryEntry -> bool {
    (h: HistoryEntry) => HistoryAdmits(employees, f, h)
  }

  lemma {:induction false} HistoryAdmitsIsAllSteps(employees: map<string, Employee>, f: HistoryFilters, h: HistoryEntry)
    ensures HistoryAdmits(employees, f, h) == AllHold(HistorySteps(employees, f), h)
  {
    var t1: seq<HistoryEntry -> bool> := if f.employee.Some? then [ByEmployee(f.employee.value)] else [];
    var t2: seq<HistoryEntry -> bool> := if f.department.Some? then [ByDepartment(employees, f.department)] else [];
    var t3: seq<HistoryEntry -> bool> := if f.dateFrom.Some? then [ChangedFrom(f.dateFrom.value)] else [];
    var t4: seq<HistoryEntry -> bool> := if f.dateTo.Some? then [ChangedUntil(f.dateTo.value)] else [];
    assert HistorySteps(employees, f) == t1 + t2 + t3 + t4;
    assert AllHold(t1, h) == (f.employee.Some? ==> h.employee == f.employee.value) by {
      if f.employee.Some? { assert t1[0](h) == (h.employee == f.employee.value); }
    }
    assert AllHold(t2, h) == (f.department.Some? ==> h.employee in employees && employees[h.employee].department == f.department) by {
      if f.department.Some? { assert t2[0](h) == (h.employee in employees && employees[h.employee].department == f.department); }
    }
    assert AllHold(t3, h) == (f.dateFrom.Some? ==> OnOrBefore(f.dateFrom.value, h.changeDate)) by {
      if f.dateFrom.Some? { assert t3[0](h) == OnOrBefore(f.dateFrom.value, h.changeDate); }
    }
    assert AllHold(t4, h) == (f.dateTo.Some? ==> OnOrBefore(h.changeDate, f.dateTo.value)) by {
      if f.dateTo.Some? { assert t4[0](h) == OnOrBefore(h.changeDate, f.dateTo.value); }
    }
    AllHoldAppend(t1, t2, h);
    AllHoldAppend(t1 + t2, t3, h);
    AllHoldAppend(t1 + t2 + t3, t4, h);
  }

  /** The ledger filter chain keeps exactly the entries every filter admits, in order. */
  lemma {:induction false} HistoryFiltersAreConjunctive(employees: map<string, Employee>, hs: seq<HistoryEntry>, f: HistoryFilters)
    ensures Chain(hs, HistorySteps(employees, f)) == Where(hs, HistoryAdmittedBy(employees, f))
  {
    forall h: HistoryEntry
      ensures HistoryAdmittedBy(employees, f)(h) == AllHold(HistorySteps(employees, f), h)
    {
      HistoryAdmitsIsAllSteps(employees, f, h);
    }
    ChainIsConjunction(hs, HistorySteps(employees, f), HistoryAdmittedBy(employees, f));
  }

  /** A calendar quarter, as `ExtractYear` and `ExtractQuarter` give it. */
  datatype Period = Period(year: int, quarter: int)

  function PeriodOf(h: HistoryEntry): Period {
    Period(h.changeDate.year, Quarter(h.changeDate))
  }

  /** `order_by('year', 'quarter')`. */
  predicate Earlier(a: Period, b: Period) {
    a.year < b.year || (a.year == b.year && a.quarter < b.quarter)
  }

  predicate Ascending(ps: seq<Period>) {
    forall i, j :: 0 <= i < j < |ps| ==> Earlier(ps[i], ps[j])
  }

  function InsertPeriod(ps: seq<Period>, p: Period): (r: seq<Period>)
    requires Ascending(ps)
    ensures Ascending(r)
    ensures forall q :: q in r <==> q in ps || q == p
  {
    if ps == [] then [p]
    else if p == ps[0] then ps
    else if Earlier(p, ps[0]) then [p] + ps
    else
      var rest := InsertPeriod(ps[1..], p);
      assert forall q :: q in rest ==> Earlier(ps[0], q) by {
        forall q | q in rest
          ensures Earlier(ps[0], q)
        {
          if q != p {
            var k :| 0 <= k < |ps[1..]| && ps[1..][k] == q;
            assert ps[k + 1] == q;
          }
        }
      }
      var r := [ps[0]] + rest;
      assert forall j :: 0 < j < |r| ==> r[j] == rest[j - 1];
      r
  }

  /** The distinct periods among `ps`, in ascending order. */
  function SortedPeriods(ps: seq<Period>): (r: seq<Period>)
    ensures Ascending(r)
    ensures forall q :: q in r <==> q in ps
  {
    if ps == [] then []
    else
      assert ps == ps[..|ps| - 1] + [ps[|ps| - 1]];
      InsertPeriod(SortedPeriods(ps[..|ps| - 1]), ps[|ps| - 1])
  }

  /** One row of the ledger report: the changes of one quarter. */
  datatype PeriodRow = PeriodRow(
    year: int,
    quarter: int,
    totalChanges: nat,
    totalSalaryIncrease: Option<real>,
    totalIncomeIncrease: Option<real>,
    avgSalaryIncrease: Option<real>,
    avgIncomeIncrease: Option<real>)

  function PeriodRowOf(p: Period, hs: seq<HistoryEntry>): PeriodRow {
    PeriodRow(p.year, p.quarter, |hs|, SqlSum(hs, SalaryDiff), SqlSum(hs, TotalIncomeDiff),
              SqlAvg(hs, SalaryDiff), SqlAvg(hs, TotalIncomeDiff))
  }

  function PeriodRows(ps: seq<Period>, hs: seq<HistoryEntry>): (rows: seq<PeriodRow>)
    ensures |rows| == |ps|
    ensures forall i :: 0 <= i < |ps| ==> rows[i] == PeriodRowOf(ps[i], Where(hs, KeyIs(PeriodOf, ps[i])))
  {
    if ps == [] then []
    else PeriodRows(ps[..|ps| - 1], hs) + [PeriodRowOf(ps[|ps| - 1], Where(hs, KeyIs(PeriodOf, ps[|ps| - 1])))]
  }

  datatype HistoryReport = HistoryReport(from: Option<Date>, to: Option<Date>, data: seq<PeriodRow>)

  /** The entries the ledger report covers. */
  function Selected(employees: map<string, Employee>, hs: seq<HistoryEntry>, f: HistoryFilters): seq<HistoryEntry> {
    Where(hs, HistoryAdmittedBy(employees, f))
  }

  /**
   * `get_salary_history_report`: the admitted ledger entries grouped by quarter, one row
   * per quarter that has changes, in strictly ascending (year, quarter) order.
   */
  function GetSalaryHistoryReport(employees: map<string, Employee>, hs: seq<HistoryEntry>, f: HistoryFilters): (r: HistoryReport)
    ensures r.from == f.dateFrom && r.to == f.dateTo
    ensures forall i, j :: 0 <= i < j < |r.data| ==>
              Earlier(Period(r.data[i].year, r.data[i].quarter), Period(r.data[j].year, r.data[j].quarter))
  {
    var selected := Chain(hs, HistorySteps(employees, f));
    var ps := SortedPeriods(KeysOf(selected, PeriodOf));
    var rows := PeriodRows(ps, selected);
    assert forall i :: 0 <= i < |rows| ==> Period(rows[i].year, rows[i].quarter) == ps[i];
    HistoryReport(f.dateFrom, f.dateTo, rows)
  }

  /** The quarter of a report row. */
  function RowPeriod(row: PeriodRow): Period { Period(row.year, row.quarter) }

  /** Every admitted ledger entry is counted in the row of its quarter. */
  lemma {:induction false} SalaryHistoryCoversSelected(employees: map<string, Employee>, hs: seq<HistoryEntry>, f: HistoryFilters, h: HistoryEntry)
    requires h in Selected(employees, hs, f)
    ensures var r := GetSalaryHistoryReport(employees, hs, f);
            exists i :: 0 <= i < |r.data| && RowPeriod(r.data[i]) == PeriodOf(h)
  {
    var selected := Chain(hs, HistorySteps(employees, f));
    HistoryFiltersAreConjunctive(employees, hs, f);
    var ps := SortedPeriods(KeysOf(selected, PeriodOf));
    var rows := PeriodRows(ps, selected);
    assert GetSalaryHistoryReport(employees, hs, f).data == rows;
    assert h in selected;
    KeyOfEachRecord(selected, PeriodOf, h);
    var i :| 0 <= i < |ps| && ps[i] == PeriodOf(h);
    assert rows[i] == PeriodRowOf(ps[i], Where(selected, KeyIs(PeriodOf, ps[i])));
    assert RowPeriod(rows[i]) == PeriodOf(h);
  }

  /** Each row aggregates the (non-empty) admitted entries of its quarter: their number,
      and the sums and averages of `salary_diff` and `total_income_diff`. */
  lemma {:induction false} SalaryHistoryRowsAggregate(employees: map<string, Employee>, hs: seq<HistoryEntry>, f: HistoryFilters, i: int)
    requires 0 <= i < |GetSalaryHistoryReport(employees, hs, f).data|
    ensures var row := GetSalaryHistoryReport(employees, hs, f).data[i];
            var changes := Where(Selected(employees, hs, f), KeyIs(PeriodOf, RowPeriod(row)));
            changes != [] && row == PeriodRowOf(RowPeriod(row), changes)
  {
    var selected := Chain(hs, HistorySteps(employees, f));
    HistoryFiltersAreConjunctive(employees, hs, f);
    var ps := SortedPeriods(KeysOf(selected, PeriodOf));
    GroupNotEmpty(selected, PeriodOf, ps[i]);
  }

  // ---------------------------------------------------------------------------
  // get_fot_summary

  /** `aggregate(total=Sum, avg=Avg, count=Count)`. */
  datatype Totals = Totals(total: Option<real>, avg: Option<real>, count: nat)

  function TotalsOf<T>(xs: seq<T>, w: T -> real): Totals {
    Totals(SqlSum(xs, w), SqlAvg(xs, w), |xs|)
  }

  /** One row of the payroll by department; the department is NULL for employees without one. */
  datatype DepartmentFot = DepartmentFot(department: Option<string>, totals: Totals)

  function DepartmentOf(e: Employee): Option<string> { e.department }

  /** The sort key of `order_by('-total')`; a group is never empty, so its total is never NULL. */
  function RowTotal(r: DepartmentFot): real { r.totals.total.GetOr(0.0) }

  function DepartmentRows(ds: seq<Option<string>>, es: seq<Employee>): (rows: seq<DepartmentFot>)
    ensures |rows| == |ds|
    ensures forall i :: 0 <= i < |ds| ==> rows[i] == DepartmentFot(ds[i], TotalsOf(Where(es, KeyIs(DepartmentOf, ds[i])), Income))
  {
    if ds == [] then []
    else
      var d := ds[|ds| - 1];
      DepartmentRows(ds[..|ds| - 1], es) + [DepartmentFot(d, TotalsOf(Where(es, KeyIs(DepartmentOf, d)), Income))]
  }

  predicate Descending(rows: seq<DepartmentFot>) {
    forall i, j :: 0 <= i < j < |rows| ==> RowTotal(rows[i]) >= RowTotal(rows[j])
  }

  /** Inserts a row before the first row whose total does not exceed its own. */
  function InsertByTotal(rows: seq<DepartmentFot>, x: DepartmentFot): (r: seq<DepartmentFot>)
    ensures multiset(r) == multiset(rows) + multiset{x}
  {
    if rows == [] || RowTotal(x) >= RowTotal(rows[0]) then [x] + rows
    else
      assert rows == [rows[0]] + rows[1..];
      [rows[0]] + InsertByTotal(rows[1..], x)
  }

  /** Every row an insertion yields is the inserted row or one of the old rows. */
  lemma {:induction false} InsertedFrom(rows: seq<DepartmentFot>, x: DepartmentFot, y: DepartmentFot)
    requires y in InsertByTotal(rows, x)
    ensures y == x || exists m :: 0 <= m < |rows| && rows[m] == y
  {
    assert y in multiset(InsertByTotal(rows, x));
    if y != x {
      assert y in multiset(rows);
    }
  }

  /** Insertion keeps the rows ordered by total, largest first. */
  lemma {:induction false} InsertByTotalDescending(rows: seq<DepartmentFot>, x: DepartmentFot)
    requires Descending(rows)
    ensures Descending(InsertByTotal(rows, x))
  {
    var r := InsertByTotal(rows, x);
    if rows == [] || RowTotal(x) >= RowTotal(rows[0]) {
      forall i, j | 0 <= i < j < |r|
        ensures RowTotal(r[i]) >= RowTotal(r[j])
      {
        assert r[j] == rows[j - 1];
        if i > 0 {
          assert r[i] == rows[i - 1];
        } else {
          assert RowTotal(rows[0]) >= RowTotal(rows[j - 1]);
        }
      }
    } else {
      var rest := InsertByTotal(rows[1..], x);
      InsertByTotalDescending(rows[1..], x);
      forall i, j | 0 <= i < j < |r|
        ensures RowTotal(r[i]) >= RowTotal(r[j])
      {
        assert r[j] == rest[j - 1];
        if i > 0 {
          assert r[i] == rest[i - 1];
        } else {
          InsertedFrom(rows[1..], x, rest[j - 1]);
          if rest[j - 1] != x {
            var m :| 0 <= m < |rows[1..]| && rows[1..][m] == rest[j - 1];
            assert rows[m + 1] == rest[j - 1];
          }
        }
      }
    }
  }

  /** The rows ordered by total, largest first (`order_by('-total')`). */
  function SortByTotal(rows: seq<DepartmentFot>): (r: seq<DepartmentFot>)
    ensures multiset(r) == multiset(rows)
  {
    if rows == [] then []
    else
      assert rows == rows[..|rows| - 1] + [rows[|rows| - 1]];
      InsertByTotal(SortByTotal(rows[..|rows| - 1]), rows[|rows| - 1])
  }

  lemma {:induction false} SortByTotalDescending(rows: seq<DepartmentFot>)
    ensures Descending(SortByTotal(rows))
  {
    if rows != [] {
      SortByTotalDescending(rows[..|rows| - 1]);
      InsertByTotalDescending(SortByTotal(rows[..|rows| - 1]), rows[|rows| - 1]);
    }
  }

  predicate DistinctDepartments(rows: seq<DepartmentFot>) {
    forall i, j :: 0 <= i < j < |rows| ==> rows[i].department != rows[j].department
  }

  /** Inserting a row of a new department keeps the departments distinct. */
  lemma {:induction false} InsertKeepsDistinct(rows: seq<DepartmentFot>, x: DepartmentFot)
    requires DistinctDepartments(rows)
    requires forall m :: 0 <= m < |rows| ==> rows[m].department != x.department
    ensures DistinctDepartments(InsertByTotal(rows, x))
  {
    var r := InsertByTotal(rows, x);
    if rows == [] || RowTotal(x) >= RowTotal(rows[0]) {
      forall i, j | 0 <= i < j < |r|
        ensures r[i].department != r[j].department
      {
        assert r[j] == rows[j - 1];
        if i > 0 {
          assert r[i] == rows[i - 1];
        }
      }
    } else {
      var tail := rows[1..];
      var rest := InsertByTotal(tail, x);
      forall m | 0 <= m < |tail|
        ensures tail[m].department != x.department
      {
        assert tail[m] == rows[m + 1];
      }
      InsertKeepsDistinct(tail, x);
      forall i, j | 0 <= i < j < |r|
        ensures r[i].department != r[j].department
      {
        assert r[j] == rest[j - 1];
        if i > 0 {
          assert r[i] == rest[i - 1];
        } else {
          InsertedFrom(tail, x, rest[j - 1]);
          if rest[j - 1] != x {
            var m :| 0 <= m < |tail| && tail[m] == rest[j - 1];
            assert rows[m + 1] == rest[j - 1];
          }
        }
      }
    }
  }

  /** Sorting keeps the departments distinct. */
  lemma {:induction false} SortKeepsDistinct(rows: seq<DepartmentFot>)
    requires DistinctDepartments(rows)
    ensures DistinctDepartments(SortByTotal(rows))
  {
    if rows != [] {
      var init, x := rows[..|rows| - 1], rows[|rows| - 1];
      SortKeepsDistinct(init);
      var s := SortByTotal(init);
      forall m | 0 <= m < |s|
        ensures s[m].department != x.department
      {
        assert s[m] in multiset(init);
        var k :| 0 <= k < |init| && init[k] == s[m];
        assert rows[k] == s[m];
      }
      InsertKeepsDistinct(s, x);
    }
  }

  datatype FotSummary = FotSummary(
    currentFot: Totals,
    fotByDepartment: seq<DepartmentFot>,
    periodChanges: Option<Totals>,
    from: Option<Date>,
    to: Option<Date>)

  function DatedWithin(from: Date, to: Date): HistoryEntry -> bool {
    (h: HistoryEntry) => OnOrBefore(from, h.changeDate) && OnOrBefore(h.changeDate, to)
  }

  /** The departments of the active payroll, in order of first appearance. */
  function DepartmentKeys(active: seq<Employee>): seq<Option<string>> {
    Distinct(KeysOf(active, DepartmentOf))
  }

  /**
   * `get_fot_summary`: the payroll of the active employees, overall and by department
   * (largest total first), and the ledger's income changes between two inclusive dates
   * when both are given.
   */
  function GetFotSummary(es: seq<Employee>, hs: seq<HistoryEntry>, from: Option<Date>, to: Option<Date>): (r: FotSummary)
    ensures r.currentFot == TotalsOf(Where(es, IsActive), Income)
    ensures Descending(r.fotByDepartment)
    ensures r.periodChanges.Some? <==> from.Some? && to.Some?
    ensures r.periodChanges.Some? ==>
              r.periodChanges.value == TotalsOf(Where(hs, DatedWithin(from.value, to.value)), TotalIncomeDiff)
    ensures r.from == from && r.to == to
  {
    var active := Where(es, IsActive);
    var rows := DepartmentRows(DepartmentKeys(active), active);
    SortByTotalDescending(rows);
    var changes := if from.Some? && to.Some? then Some(TotalsOf(Where(hs, DatedWithin(from.value, to.value)), TotalIncomeDiff)) else None;
    FotSummary(TotalsOf(active, Income), SortByTotal(rows), changes, from, to)
  }

  /** The row totals the department's active employees, and it has at least one. */
  predicate AggregatesDepartment(row: DepartmentFot, active: seq<Employee>) {
    var members := Where(active, KeyIs(DepartmentOf, row.department));
    members != [] && row.totals == TotalsOf(members, Income)
  }

  /** Each department row aggregates the (non-empty) active employees of its department. */
  lemma {:induction false} FotRowsAggregate(es: seq<Employee>, hs: seq<HistoryEntry>, from: Option<Date>, to: Option<Date>)
    ensures var rows := GetFotSummary(es, hs, from, to).fotByDepartment;
            forall i :: 0 <= i < |rows| ==> AggregatesDepartment(rows[i], Where(es, IsActive))
  {
    var active := Where(es, IsActive);
    var rows := DepartmentRows(DepartmentKeys(active), active);
    var sorted := SortByTotal(rows);
    DepartmentRowAggregates(active);
    forall i | 0 <= i < |sorted|
      ensures AggregatesDepartment(sorted[i], active)
    {
      assert sorted[i] in multiset(rows);
    }
  }

  lemma {:induction false} DepartmentRowAggregates(active: seq<Employee>)
    ensures forall row :: row in DepartmentRows(DepartmentKeys(active), active) ==> AggregatesDepartment(row, active)
  {
    var ds := DepartmentKeys(active);
    var rows := DepartmentRows(ds, active);
    forall row | row in rows
      ensures AggregatesDepartment(row, active)
    {
      var k :| 0 <= k < |rows| && rows[k] == row;
      assert row.department == ds[k];
      assert ds[k] in KeysOf(active, DepartmentOf);
      GroupNotEmpty(active, DepartmentOf, ds[k]);
    }
  }

  /** No department has two rows. */
  lemma {:induction false} FotDepartmentsDistinct(es: seq<Employee>, hs: seq<HistoryEntry>, from: Option<Date>, to: Option<Date>)
    ensures DistinctDepartments(GetFotSummary(es, hs, from, to).fotByDepartment)
  {
    var active := Where(es, IsActive);
    var ds := DepartmentKeys(active);
    var rows := DepartmentRows(ds, active);
    assert DistinctDepartments(rows) by {
      forall i, j | 0 <= i < j < |rows|
        ensures rows[i].department != rows[j].department
      {
        assert rows[i].department == ds[i] && rows[j].department == ds[j];
      }
    }
    SortKeepsDistinct(rows);
  }

  /** Every active employee's department (NULL included) has a row. */
  lemma {:induction false} FotCoversActive(es: seq<Employee>, hs: seq<HistoryEntry>, from: Option<Date>, to: Option<Date>, e: Employee)
    requires e in es && e.isActive
    ensures var rows := GetFotSummary(es, hs, from, to).fotByDepartment;
            exists i :: 0 <= i < |rows| && rows[i].department == e.department
  {
    var active := Where(es, IsActive);
    var ds := DepartmentKeys(active);
    var rows := DepartmentRows(ds, active);
    var sorted := SortByTotal(rows);
    assert sorted == GetFotSummary(es, hs, from, to).fotByDepartment;
    var n :| 0 <= n < |es| && es[n] == e;
    assert IsActive(es[n]);
    KeyOfEachRecord(active, DepartmentOf, e);
    var m :| 0 <= m < |active| && KeysOf(active, DepartmentOf)[m] == e.department;
    assert e.department in ds;
    var k :| 0 <= k < |ds| && ds[k] == e.department;
    assert rows[k] in multiset(sorted);
    var i :| 0 <= i < |sorted| && sorted[i] == rows[k];
    assert sorted[i].department == e.department;
  }

  /** Inserting a row adds its total to the sum. */
  lemma {:induction false} InsertByTotalSum(rows: seq<DepartmentFot>, x: DepartmentFot)
    ensures SumBy(InsertByTotal(rows, x), RowTotal) == SumBy(rows, RowTotal) + RowTotal(x)
  {
    if rows == [] || RowTotal(x) >= RowTotal(rows[0]) {
      SumByPrepend(x, rows, RowTotal);
    } else {
      InsertByTotalSum(rows[1..], x);
      SumByPrepend(rows[0], InsertByTotal(rows[1..], x), RowTotal);
      SumByPrepend(rows[0], rows[1..], RowTotal);
      assert [rows[0]] + rows[1..] == rows;
    }
  }

  lemma {:induction false} SortByTotalSum(rows: seq<DepartmentFot>)
    ensures SumBy(SortByTotal(rows), RowTotal) == SumBy(rows, RowTotal)
  {
    if rows != [] {
      SortByTotalSum(rows[..|rows| - 1]);
      InsertByTotalSum(SortByTotal(rows[..|rows| - 1]), rows[|rows| - 1]);
    }
  }

  /** The department rows' totals add up to the group sums of the payroll. */
  lemma {:induction false} DepartmentRowsSum(ds: seq<Option<string>>, es: seq<Employee>)
    ensures SumBy(DepartmentRows(ds, es), RowTotal) == GroupSum(ds, es, DepartmentOf, Income)
  {
    if ds != [] {
      var rows := DepartmentRows(ds, es);
      DepartmentRowsSum(ds[..|ds| - 1], es);
      assert rows[..|ds| - 1] == DepartmentRows(ds[..|ds| - 1], es);
    }
  }

  /**
   * The payroll by department adds up to the whole payroll: the department totals sum to
   * the total current income of the active employees.
   */
  lemma {:induction false} FotByDepartmentAddsUp(es: seq<Employee>, hs: seq<HistoryEntry>, from: Option<Date>, to: Option<Date>)
    ensures var r := GetFotSummary(es, hs, from, to);
            SumBy(r.fotByDepartment, RowTotal) == TotalIncome(Where(es, IsActive))
  {
    var active := Where(es, IsActive);
    var ds := DepartmentKeys(active);
    var rows := DepartmentRows(ds, active);
    SortByTotalSum(rows);
    DepartmentRowsSum(ds, active);
    forall e | e in active
      ensures DepartmentOf(e) in ds
    {
      var n :| 0 <= n < |active| && active[n] == e;
      assert KeysOf(active, DepartmentOf)[n] == DepartmentOf(e);
    }
    GroupsPartition(ds, active, DepartmentOf, Income);
    SumOfIncomes(active);
  }
}
