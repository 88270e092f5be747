# Payroll directory, workbook import and Jira export: a Dafny model

This project models the service layer of the `excel_parser` Django app. The modelled parts are:

- **Bulk loader** (`DataLoaderService`). It reads department, division, group and employee sheets into the organisational directory. Repeated loads are idempotent (`get_or_create`). It keeps a compensation-history ledger that gains one entry per real pay change. It also contains the two lenient cell parsers, `parse_date` and `parse_decimal`.
- **Reports** (`AnalyticsService`):
  - the year-over-year payroll delta of a department;
  - the custom report (filters, metrics and group-by columns);
  - the quarterly salary-history report;
  - the payroll (FOT) summary by department.
- **Workbook import** (`ExcelParserService`, `ExcelUploadService`). An upload creates a pending file record. Parsing maps each sheet column to a field name and stores every data row as a JSON object. It moves the record through processing to completed or failed, and writes the row counter every hundred rows.
- **Jira export** (`JiraService`). It builds an issue summary and description from a stored row and posts the issue. It writes the issue key and link back to the row. A batch sorts rows into created, skipped and failed.
- **Records** (`excel_parser/models.py`): the file record, the stored row with its Jira link, and the column mapping. It also covers the data preview of a row.

How the model is built:

- Pure code is written as functions over datatypes: the parsers, the reports and the string building.
- Code that updates records step by step is written as classes whose methods change fields:
  - `Loader.Store` (the database the loaders write to);
  - `Models.ExcelFile`;
  - `Models.ExcelRow`;
  - `Jira.JiraService`.
- Each such method is proved against a specification function of its old state. The lemmas are stated about that function.
- Loops in the source become `for` loops with invariants. These are the loader loops, the column and row loops of the parser, and the summary, description and batch loops of the Jira service.

Some conventions apply throughout:

- Database ids become natural keys:
  - a department is its name;
  - a division is (department, name);
  - a group is (division, name);
  - an employee is its login.
- Money is exact (`real`).
- SQL `SUM` and `AVG` are NULL (`None`) over no rows.

The models for Department, Division, Group, Employee and SalaryHistory are imported by `data_loader.py` and `analytics.py`, but `excel_parser/models.py` does not define them. `Registry` follows the fields that those services use, together with `admin.py` and `serializers.py`.

Module layout:

| module | file | models |
|---|---|---|
| `Wrappers` | wrappers.dfy | Option and Result |
| `Text` | text.dfy | `strip`, `rstrip(ch)`, `lower`, `join`, `str(int)` |
| `Calendar` | calendar.dfy | dates, quarters |
| `Cells` | cells.dfy | sheet cells, `parse_decimal`, `parse_date` |
| `Queries` | queries.dfy | `filter`, SUM/AVG, grouping |
| `Registry` | registry.dfy | directory, employees, ledger entries |
| `Loader` | loader.dfy | `DataLoaderService` |
| `Analytics` | analytics.dfy | `AnalyticsService` |
| `Models` | models.dfy | `ExcelFile`, `ExcelRow`, `ExcelColumnMapping` |
| `Ingestion` | ingestion.dfy | `ExcelParserService`, `ExcelUploadService` |
| `Jira` | jira.dfy | `JiraService` |

## Model

| member | source | states |
|---|---|---|
| Text.StripEmptyIffBlank | excel_parser/services/data_loader.py:60-62 | a stripped cell text is empty exactly when it holds only whitespace, so only blank names are skipped |
| Text.TrimEndChar | excel_parser/services/jira_service.py:17 | `rstrip('/')` keeps a prefix that does not end in '/' and removes only '/' characters |
| Text.Lower | excel_parser/services/excel_parser.py:46 | `lower()` keeps the length and lower-cases each character; no capital is left |
| Text.NatToStringRoundTrip | excel_parser/services/jira_service.py:140 | the decimal rendering of a number reads back as that number |
| Calendar.DaysInMonth | excel_parser/services/data_loader.py:27 | February has 29 days in a leap year and 28 otherwise; April, June, September and November have 30 days; the other months have 31 |
| Calendar.Quarter | excel_parser/services/analytics.py:185 | `ExtractQuarter` gives 1 to 4, and the quarter holds the month |
| Cells.Str | excel_parser/services/data_loader.py:60 | `str()` of an empty cell is "nan" and of a text cell is its text |
| Cells.ParseNumeral | excel_parser/services/data_loader.py:43 | a text that `Decimal` reads starts with a digit, a sign or a point and holds at least one digit |
| Cells.ParseDecimalText | excel_parser/services/data_loader.py:43 | a blank text is never read as a number |
| Cells.ParseDecimal | excel_parser/services/data_loader.py:37-45 | a missing value is 0.00; a value whose `str()` `Decimal` cannot read is 0.00; any other value is the number its `str()` reads as |
| Cells.ParseDecimalOfFlag | excel_parser/services/data_loader.py:41-45 | `True` and `False` are read as 0.00, since `Decimal` cannot read their `str()` |
| Cells.ParseDecimalOfTimestamp | excel_parser/services/data_loader.py:41-45 | a timestamp cell, whose `str()` is `YYYY-MM-DD` and a time, is read as 0.00 |
| Cells.ReadsFixedPoint | excel_parser/services/data_loader.py:43 | `[-]whole.frac` reads as its value |
| Cells.ParseDecimalReadsCents | excel_parser/services/data_loader.py:42-43 | an amount rendered with two decimals is read back exactly, from a text cell and from a numeric cell |
| Cells.MakeDate | excel_parser/services/data_loader.py:27 | a date is built only when it exists in the calendar |
| Cells.ParseIsoDate | excel_parser/services/data_loader.py:27 | `%Y-%m-%d` yields only valid dates |
| Cells.ParseDottedDate | excel_parser/services/data_loader.py:30 | `%d.%m.%Y` yields only valid dates |
| Cells.ParseDate | excel_parser/services/data_loader.py:21-35 | missing, numeric and boolean values give None; a timestamp gives its date; a string yields only valid dates |
| Cells.ParseDateReadsIso | excel_parser/services/data_loader.py:26-27 | an ISO date string reads back as its date |
| Cells.ParseDateReadsDotted | excel_parser/services/data_loader.py:28-30 | a `dd.mm.yyyy` string fails the first format and reads back as its date on the second |
| Queries.Where | excel_parser/services/analytics.py:107-119 | a filter keeps only accepted records, drops no accepted record, and never grows |
| Queries.WhereThen | excel_parser/services/analytics.py:110-119 | filtering by one condition and then by another keeps exactly the records, in the same order, that one filter by both conditions keeps |
| Queries.SumOr | excel_parser/services/analytics.py:64-65 | `Sum(...) or fallback` is the column sum when that is non-zero, otherwise the fallback |
| Queries.AvgOr | excel_parser/services/analytics.py:68-69 | `Avg(...) or fallback` is the mean of the column when its sum is non-zero, otherwise the fallback |
| Queries.WhereTwice | excel_parser/services/analytics.py:35 | repeating a filter changes nothing |
| Queries.ChainIsConjunction | excel_parser/services/analytics.py:107-119 | a chain of filters keeps exactly the records that meet every condition, in order |
| Queries.SqlSum | excel_parser/services/analytics.py:217-221 | SUM is NULL exactly over no rows, otherwise the column sum |
| Queries.SqlAvg | excel_parser/services/analytics.py:219 | AVG is NULL exactly over no rows, otherwise a value that times the count is the sum |
| Queries.Distinct | excel_parser/services/analytics.py:224 | the distinct keys have no duplicates and hold exactly the keys that occur |
| Queries.GroupNotEmpty | excel_parser/services/analytics.py:224-227 | every group that `values().annotate()` yields has at least one record |
| Queries.GroupsPartition | excel_parser/services/analytics.py:224-227 | the group sums add up to the sum over all records when every key is listed once |
| Registry.TotalIncomeDiffIsSumOfDiffs | excel_parser/serializers.py:104-108 | a ledger entry's income difference is the sum of its four component differences, and zero when nothing changed |
| Registry.TotalIncomeIsSumOfColumns | excel_parser/admin.py:48-55 | total `current_income` equals the four pay columns summed separately |
| Loader.LookupByName | excel_parser/services/data_loader.py:192-202 | `Division.objects.get(name=...)` and `Group.objects.get(name=...)` find nothing exactly when no record has the name, find a record only when it is the one record with the name, and otherwise report at least two matches |
| Loader.GetOne | excel_parser/services/data_loader.py:94-98 | `get()` finds nothing exactly for no match, finds the one match when there is one, and otherwise reports the number of matches, at least two |
| Loader.DepartmentsLoaded | excel_parser/services/data_loader.py:59-74 | the department loop changes only the departments, and only adds to them |
| Loader.DepartmentStepCounts | excel_parser/services/data_loader.py:60-72 | one named row is counted once and adds its name; `created` grows by the number of names new to the store |
| Loader.DepartmentsAccounted | excel_parser/services/data_loader.py:59-74 | each named row is counted once as created or updated; the departments become the old ones plus the names; `created` counts the new names; nothing else changes |
| Loader.DepartmentsPresent | excel_parser/services/data_loader.py:64-72 | names that all exist create nothing and change nothing |
| Loader.DepartmentsRerun | excel_parser/services/data_loader.py:64-67 | loading the same rows again creates nothing |
| Loader.DepartmentsKeepConsistent | excel_parser/services/data_loader.py:59-74 | every reference in the store stays valid |
| Loader.DivisionsLoaded | excel_parser/services/data_loader.py:87-111 | the division loop changes only the divisions, and only adds to them |
| Loader.DivisionStepCounts | excel_parser/services/data_loader.py:88-109 | a row with both parts and an existing department is counted once and adds its key; other rows change nothing; `created` grows by the number of keys new to the store |
| Loader.DivisionsOnlyAdd | excel_parser/services/data_loader.py:100-104 | the division loop only adds divisions |
| Loader.DivisionsAccounted | excel_parser/services/data_loader.py:87-111 | rows that name both parts and an existing department are counted once and their key exists afterwards; other rows are skipped; `created` counts the new keys |
| Loader.DivisionsKeepConsistent | excel_parser/services/data_loader.py:87-111 | every reference in the store stays valid |
| Loader.DivisionsPresent | excel_parser/services/data_loader.py:100-109 | divisions that all exist create nothing |
| Loader.DivisionsRerun | excel_parser/services/data_loader.py:100-104 | loading the same rows again creates nothing |
| Loader.GroupsLoaded | excel_parser/services/data_loader.py:124-151 | the group loop changes only the groups, and only adds to them, also when it aborts |
| Loader.GroupsOnlyAdd | excel_parser/services/data_loader.py:137-141 | the group loop only adds groups |
| Loader.GroupsAccounted | excel_parser/services/data_loader.py:124-151 | the batch fails, with Django's message, exactly when a row names a division shared by several departments; otherwise every resolved row is counted once and its group exists |
| Loader.GroupsFailIff | excel_parser/services/data_loader.py:131-151 | the batch fails exactly when some row names a division shared by several departments; the divisions are unchanged |
| Loader.GroupsCounted | excel_parser/services/data_loader.py:124-146 | a batch that goes through counts each placed row once, adds exactly the placed groups, and `created` is the number of new groups |
| Loader.GroupsKeepConsistent | excel_parser/services/data_loader.py:124-151 | every reference stays valid, also after an abort |
| Loader.GroupsAbortSticks | excel_parser/services/data_loader.py:149-151 | once a row aborts the batch, later rows are not looked at |
| Loader.GroupsPresent | excel_parser/services/data_loader.py:137-146 | groups that all exist create nothing |
| Loader.GroupsRerun | excel_parser/services/data_loader.py:137-141 | a batch that went through creates nothing when loaded again |
| Loader.EmployeeRowOfColumns | excel_parser/services/data_loader.py:164-238 | the login and division read the Russian column when present, else the English one, else blank; the salary reads `Оклад`, else `salary`, else `current_salary`, else 0.00 |
| Loader.Place | excel_parser/services/data_loader.py:181-218 | placement fails exactly when a named division or group matches several records (a division failing with Django's message and count); on success only the department, division, group and manager fields may differ |
| Loader.EmployeeStep | excel_parser/services/data_loader.py:163-270 | an empty login fails with `Row N: Missing login` and changes nothing; otherwise the login is stored and no other employee changes; created means a new login and updated a stored one; the ledger is unchanged or gains one entry with the old and new pay when history is on, the pay changed and the row went through |
| Loader.NewEmployee | excel_parser/services/data_loader.py:170-179 | a new login gets the row's name, its position (None when blank), its hire date or today, zero pay, and is active |
| Loader.EmployeeStepFails | excel_parser/services/data_loader.py:164-167 | a row fails exactly on an empty login or an ambiguous division or group; a fetched employee stays stored and gets no ledger entry |
| Loader.EmployeeStepPay | excel_parser/services/data_loader.py:220-261 | after a row, the pay is the parsed row values; one ledger entry with full before and after pay is appended exactly when history is on and some component changed |
| Loader.PlaceAssigns | excel_parser/services/data_loader.py:181-218 | each placement and manager field holds what its lookup found, or keeps its value when the name is blank or not found |
| Loader.PlaceDivision | excel_parser/services/data_loader.py:192-196 | a division found once is assigned; blank or unknown names leave the field |
| Loader.PlaceGroup | excel_parser/services/data_loader.py:198-202 | a group found once is assigned; blank or unknown names leave the field |
| Loader.EmployeeStepSaves | excel_parser/services/data_loader.py:240 | a row that goes through stores the employee under its login |
| Loader.EmployeesAccounted | excel_parser/services/data_loader.py:162-270 | every row is reported once: as created, as updated, or as an error line |
| Loader.EmployeesLoaded | excel_parser/services/data_loader.py:162-270 | the employee loop leaves departments, divisions and groups alone and removes no employee |
| Loader.EmployeesKeys | excel_parser/services/data_loader.py:170-179 | the employees become the old ones plus one per non-empty login; other records are untouched |
| Loader.EmployeesHistory | excel_parser/services/data_loader.py:242-261 | the ledger only grows; each new entry belongs to a row's login, is dated today, has the import comment and records a real change; none when history is off |
| Loader.EmployeesMissingLogin | excel_parser/services/data_loader.py:165-167 | a row without a login is reported as `Row {idx + 2}: Missing login` |
| Loader.EmployeesPresent | excel_parser/services/data_loader.py:263-266 | rows whose logins all exist create nobody |
| Loader.EmployeesRerun | excel_parser/services/data_loader.py:170-179 | loading the same rows again creates nobody |
| Loader.EmployeesKeepConsistent | excel_parser/services/data_loader.py:162-270 | every reference in the store stays valid |
| Loader.Store.LoadDepartments | excel_parser/services/data_loader.py:48-77 | the store and the counters are the department fold over the rows, and consistency is kept |
| Loader.Store.LoadDivisions | excel_parser/services/data_loader.py:80-114 | the store and the counters are the division fold, and consistency is kept |
| Loader.Store.LoadGroups | excel_parser/services/data_loader.py:117-151 | the store and the result are the group fold, including the abort, and consistency is kept |
| Loader.Store.LoadDepartmentRow | excel_parser/services/data_loader.py:60-72 | one loop body changes the store and the counters as one department fold step |
| Loader.Store.LoadDivisionRow | excel_parser/services/data_loader.py:88-109 | one loop body changes the store and the counters as one division fold step |
| Loader.Store.LoadGroupRow | excel_parser/services/data_loader.py:125-146 | one loop body is one group fold step, including the abort on an ambiguous division |
| Loader.Store.LoadEmployees | excel_parser/services/data_loader.py:154-279 | the store and the report are the employee fold, and consistency is kept |
| Loader.Store.LoadEmployeeRow | excel_parser/services/data_loader.py:163-270 | one loop body changes the store as one fold step |
| Loader.Store.PlaceEmployee | excel_parser/services/data_loader.py:181-202 | placement keeps the login and pay and is the placement function of the store; an ambiguous division or group fails the row |
| Analytics.SumOfIncomes | excel_parser/services/analytics.py:57-58 | the summed `current_income` column is the registry's income total |
| Analytics.Percent | excel_parser/services/analytics.py:79 | the growth is 0 for a base that is not positive; otherwise it is the delta as a percentage of the base |
| Analytics.MembersDelta | excel_parser/services/analytics.py:35-84 | the count is the members; the from-values are the sum and mean of `total_income_after` over the `yearFrom` entries (0 over none); the to-values are the same over the `yearTo` entries when that sum is non-zero, otherwise the members' current payroll sum and mean; each delta is to minus from; the percent is guarded |
| Analytics.GetDepartmentDelta | excel_parser/services/analytics.py:17-84 | None exactly for an unknown department; otherwise the department and years are echoed, the count is its active employees, each delta is the to-value minus the from-value, and the percent is guarded (the values themselves are stated by `DeltaFromIsLedger`, `DeltaTotalToFallsBack` and `DeltaAvgToFallsBack`) |
| Analytics.DeltaFromIsLedger | excel_parser/services/analytics.py:37-68 | the `yearFrom` total is the ledger sum of the members' entries of that year, and the `yearFrom` average is that sum over the number of entries, 0 when there are none |
| Analytics.DeltaAvgToFallsBack | excel_parser/services/analytics.py:69 | the `yearTo` average is the ledger mean when the ledger sum is non-zero, otherwise the members' mean current payroll, and 0 without members |
| Analytics.DeltaSeesOnlyActiveMembers | excel_parser/services/analytics.py:35-54 | inactive employees and employees of other departments do not affect the delta |
| Analytics.DeltaTotalToFallsBack | excel_parser/services/analytics.py:65 | the `yearTo` total is the ledger sum when it is non-zero, otherwise the current payroll |
| Analytics.FiltersAreConjunctive | excel_parser/services/analytics.py:107-119 | the filter chain keeps exactly the active employees that match every present filter |
| Analytics.AdmitsIsAllSteps | excel_parser/services/analytics.py:107-119 | admission is the conjunction of the chain's steps |
| Analytics.Annotations | excel_parser/services/analytics.py:122-134 | the metrics are exactly the whitelisted names requested, in whitelist order |
| Analytics.Columns | excel_parser/services/analytics.py:137-143 | the group-by columns are exactly the recognised names requested, in fixed order |
| Analytics.GroupedRows | excel_parser/services/analytics.py:145-146 | with metrics, there is one row per distinct key; each employee's key has a row, and each row measures its non-empty group. Without metrics, row i holds employee i's column values and no measures |
| Analytics.GroupedCovers | excel_parser/services/analytics.py:145-146 | the grouped rows have distinct keys; every employee's key has a row; each row measures its non-empty group |
| Analytics.GetCustomReport | excel_parser/services/analytics.py:87-155 | defaults are applied to metrics and group-by; the report is one aggregate exactly when no column is recognised; otherwise it is grouped rows over the admitted employees |
| Analytics.HistoryAdmitsIsAllSteps | excel_parser/services/analytics.py:171-180 | ledger admission is the conjunction of the chain's steps |
| Analytics.HistoryFiltersAreConjunctive | excel_parser/services/analytics.py:171-180 | the ledger filter chain keeps exactly the entries every present filter admits, with inclusive dates |
| Analytics.InsertPeriod | excel_parser/services/analytics.py:192 | insertion keeps the periods ascending and adds exactly one period |
| Analytics.SortedPeriods | excel_parser/services/analytics.py:183-192 | the distinct periods, strictly ascending |
| Analytics.PeriodRows | excel_parser/services/analytics.py:186-191 | one row per period, aggregating that period's entries |
| Analytics.GetSalaryHistoryReport | excel_parser/services/analytics.py:158-200 | the dates are echoed; rows are in strictly ascending (year, quarter) order |
| Analytics.SalaryHistoryCoversSelected | excel_parser/services/analytics.py:183-192 | every admitted entry has the row of its quarter |
| Analytics.SalaryHistoryRowsAggregate | excel_parser/services/analytics.py:186-191 | each row counts, sums and averages the non-empty set of its quarter's entries |
| Analytics.DepartmentRows | excel_parser/services/analytics.py:224-227 | each department row holds the totals of that department's employees |
| Analytics.InsertByTotal | excel_parser/services/analytics.py:228 | insertion adds exactly the new row (as a multiset) |
| Analytics.InsertByTotalDescending | excel_parser/services/analytics.py:228 | insertion keeps the rows ordered by total, largest first |
| Analytics.SortByTotal | excel_parser/services/analytics.py:228 | sorting is a permutation of the rows |
| Analytics.SortByTotalDescending | excel_parser/services/analytics.py:228 | the sorted rows are ordered by total, largest first |
| Analytics.InsertKeepsDistinct | excel_parser/services/analytics.py:224-228 | inserting a new department keeps departments distinct |
| Analytics.SortKeepsDistinct | excel_parser/services/analytics.py:224-228 | sorting keeps departments distinct |
| Analytics.GetFotSummary | excel_parser/services/analytics.py:203-250 | the current payroll aggregates the active employees; rows are ordered by total descending; period changes exist exactly when both dates are given, aggregating `total_income_diff` over the inclusive range |
| Analytics.FotRowsAggregate | excel_parser/services/analytics.py:224-227 | each department row aggregates the non-empty set of that department's active employees |
| Analytics.DepartmentRowAggregates | excel_parser/services/analytics.py:224-227 | a row built for a department aggregates that department's active employees |
| Analytics.FotDepartmentsDistinct | excel_parser/services/analytics.py:224 | no department has two rows |
| Analytics.FotCoversActive | excel_parser/services/analytics.py:214-224 | every active employee's department, NULL included, has a row |
| Analytics.InsertByTotalSum | excel_parser/services/analytics.py:228 | insertion adds the row's total to the sum |
| Analytics.SortByTotalSum | excel_parser/services/analytics.py:228 | sorting keeps the sum of totals |
| Analytics.DepartmentRowsSum | excel_parser/services/analytics.py:224-227 | the department totals are the group sums of the payroll |
| Analytics.FotByDepartmentAddsUp | excel_parser/services/analytics.py:217-228 | the department totals add up to the total current income of the active employees |
| Models.StatusOf | excel_parser/models.py:20-30 | exactly the four status names are accepted, each as the state it names |
| Models.StatusNameRoundTrip | excel_parser/models.py:20-30 | every state is stored under a name that reads back as that state |
| Models.Keys | excel_parser/models.py:54 | the keys of a JSON object, one per entry, in order |
| Models.Lookup | excel_parser/models.py:54 | `data.get(key)` is None exactly for an absent key, otherwise the value of an entry with that key |
| Models.KeyIndex | excel_parser/services/excel_parser.py:72 | the position of the first entry with the key, or the length when there is none |
| Models.PutKeys | excel_parser/services/excel_parser.py:72 | assignment keeps the keys in place and appends only an unseen key |
| Models.PutThenLookup | excel_parser/services/excel_parser.py:72 | after `data[key] = v`, the keys stay distinct, the key reads v, and other keys read as before |
| Models.LookupAt | excel_parser/models.py:54 | with distinct keys, each entry is what its key reads |
| Models.PrefixSlice | excel_parser/models.py:78 | Python's `s[:m]` is a prefix of the text whose length follows the sign of m |
| Models.DataPreview | excel_parser/models.py:76-81 | the preview is the text when it fits, otherwise its slice plus "..."; `max_length` defaults to 100 |
| Models.DataPreviewBounds | excel_parser/models.py:76-81 | for a non-negative bound, the preview is at most three characters longer than the bound; when cut, it is the first characters of the text plus "..." |
| Models.DataPreviewNegative | excel_parser/models.py:76-81 | a negative bound drops characters from the end and always adds the ellipsis |
| Models.ExcelRow.constructor | excel_parser/models.py:50-59 | a new row has its number and data (default empty) and no Jira link |
| Models.ExcelFile.constructor | excel_parser/models.py:11-31 | a new record is pending, with both counters at 0 and no error |
| Models.ExcelFile.Save | excel_parser/services/excel_parser.py:26 | `save()` writes the current state once more |
| Ingestion.Underscored | excel_parser/services/excel_parser.py:46 | `replace(' ', '_')` keeps the length and leaves no space |
| Ingestion.FieldName | excel_parser/services/excel_parser.py:46 | a field name is the label lower-cased with spaces replaced by '_', per character |
| Ingestion.MappingsAfterExtends | excel_parser/services/excel_parser.py:41-49 | existing mappings are kept; new ones are only appended |
| Ingestion.MappingsAfterCovers | excel_parser/services/excel_parser.py:41-49 | every column has a mapping afterwards |
| Ingestion.MappingsAfterUnique | excel_parser/services/excel_parser.py:42-44 | no label gets a second mapping |
| Ingestion.MappingsAfterDerived | excel_parser/services/excel_parser.py:45-48 | a created mapping holds its column's field name and position |
| Ingestion.MappingsAfterCovered | excel_parser/services/excel_parser.py:42-49 | once every column is mapped, nothing is created |
| Ingestion.MappingsAfterIdempotent | excel_parser/services/excel_parser.py:41-49 | parsing the same sheet again adds no mapping |
| Ingestion.MapColumns | excel_parser/services/excel_parser.py:41-49 | the mapping loop yields the mapping fold |
| Ingestion.ToValue | excel_parser/services/excel_parser.py:61-70 | a value is null exactly for a missing cell; a timestamp becomes its ISO text; text stays text |
| Ingestion.RowDataKeys | excel_parser/services/excel_parser.py:59-72 | a row's data has one key per distinct label, in order of first appearance |
| Ingestion.RowDataLookup | excel_parser/services/excel_parser.py:60-72 | a label reads the converted cell of its last column |
| Ingestion.RowDataOfDistinctColumns | excel_parser/services/excel_parser.py:59-72 | with distinct labels, the data has one entry per column, in column order |
| Ingestion.ConvertRow | excel_parser/services/excel_parser.py:59-72 | the column loop builds the row's data |
| Ingestion.CheckpointsShape | excel_parser/services/excel_parser.py:81-84 | one write per hundred rows, holding the count reached |
| Ingestion.ParsedSavesProgress | excel_parser/services/excel_parser.py:25-88 | a parse is seen as processing until its final completed write with both counters at n; the counter grows in steps of a hundred; there are n/100 + 3 writes |
| Ingestion.ParseExcelFile | excel_parser/services/excel_parser.py:17-97 | a failed read ends failed with the message; a successful read maps every column, stores every row once with number index + 2 and its data, and ends completed with both counters at the row count |
| Ingestion.LoadSheet | excel_parser/services/excel_parser.py:38-88 | the part after a successful read, write by write |
| Ingestion.StoreRows | excel_parser/services/excel_parser.py:56-84 | the row loop stores each row and writes the checkpoints |
| Ingestion.StoreRow | excel_parser/services/excel_parser.py:75-79 | one stored row with its number and data |
| Ingestion.Checkpoint | excel_parser/services/excel_parser.py:81-84 | the counter is written exactly on multiples of a hundred |
| Ingestion.UploadExcelFile | excel_parser/services/excel_parser.py:104-124 | a new pending record named by `file_name`, or after the upload when no name is given |
| Jira.RenderedIsShown | excel_parser/services/jira_service.py:60-62 | the rendered parts are exactly the items with a value, each rendered, in order |
| Jira.RenderedEmptyIff | excel_parser/services/jira_service.py:60-63 | nothing is rendered exactly when every value is None |
| Jira.FirstThree | excel_parser/services/jira_service.py:60 | `list(items)[:3]` is the first min(3, n) items |
| Jira.DefaultSummaryCases | excel_parser/services/jira_service.py:58-63 | the summary is "Задача из Excel (строка N)" when none of the first three items has a value; otherwise it is their `key: value` parts joined by " \| " |
| Jira.JoinAfterHead | excel_parser/services/jira_service.py:73 | joining a head and lines is the head followed by each line after a separator |
| Jira.DefaultDescriptionShape | excel_parser/services/jira_service.py:69-73 | the description is the header plus a newline and `*key*: value` per item with a value; it is only the header exactly when no item has a value |
| Jira.BuildSummary | excel_parser/services/jira_service.py:58-63 | the summary loop builds the default summary |
| Jira.BuildDescription | excel_parser/services/jira_service.py:69-73 | the description loop builds the default description |
| Jira.PayloadFor | excel_parser/services/jira_service.py:76-101 | the summary sent is the first 255 characters of the summary, or all of it when it is shorter; the description and issue type are passed through; the project defaults to "PROJ" |
| Jira.JiraService.constructor | excel_parser/services/jira_service.py:16-19 | the base address loses its trailing slashes; the credentials are kept |
| Jira.JiraService.Auth | excel_parser/services/jira_service.py:21-26 | fails with the configuration message exactly when the email or the token is missing or empty |
| Jira.DefaultSummary | excel_parser/services/jira_service.py:58-63 | the default summary is never empty |
| Jira.DefaultDescription | excel_parser/services/jira_service.py:68-73 | the default description starts with the header `Данные из Excel файла:` |
| Jira.SummaryOf | excel_parser/services/jira_service.py:54-63 | only a template can fail; without one the summary is the non-empty default |
| Jira.DescriptionOf | excel_parser/services/jira_service.py:65-73 | only a template can fail; without one the description is the default, starting with the header |
| Jira.JiraService.IssueOutcome | excel_parser/services/jira_service.py:43-146 | a keyed row returns `already_exists`, unchanged and unsent; a row without a key and without templates is sent whenever the credentials are set; the row changes only on a sent success and then holds the new key; every new issue was sent (the failures are stated by `RequestFailures` and `UnsentFailure`) |
| Jira.JiraService.ExistingKeyShortCircuits | excel_parser/services/jira_service.py:43-49 | a row with a key returns it with `already_exists`, sends nothing and is unchanged |
| Jira.JiraService.NewIssueLink | excel_parser/services/jira_service.py:118-137 | without a key, a failure leaves the row alone; a success is a new issue the server accepted, and the row then holds the key, `base/browse/key` and the instant |
| Jira.JiraService.SentRequest | excel_parser/services/jira_service.py:76-117 | a request is sent exactly when the row has no key and the summary, description and credentials are ready; it goes to the issue endpoint with those credentials, and its fields are `PayloadFor` of them: the summary cut to its first 255 characters and the project defaulting to "PROJ" |
| Jira.JiraService.RequestFailures | excel_parser/services/jira_service.py:139-146 | an HTTP error fails with "Jira API error: status - text"; any other error fails with "Error creating Jira issue: ..." |
| Jira.JiraService.UnsentFailure | excel_parser/services/jira_service.py:54-105 | a row without a key that sends nothing fails with the unwrapped error of the first step that raised: the summary template, then the description template, then the credentials check with its configuration message; the row is left alone |
| Jira.JiraService.CreateIssue | excel_parser/services/jira_service.py:28-146 | the result, the request sent and the row's new Jira fields are the issue outcome of the row's old fields |
| Jira.JiraService.BatchStep | excel_parser/services/jira_service.py:169-205 | one loop body tracks the same set of rows as before; it only rewrites the Jira fields of rows already in the batch |
| Jira.JiraService.BatchStepEntry | excel_parser/services/jira_service.py:169-205 | a keyed row adds a skipped entry with its key ("Already has Jira key") and changes nothing else; any other row adds either a created entry for the request it sent, whose key and browse link are now the row's with the batch instant, or an error entry that leaves the row alone; no other row changes |
| Jira.JiraService.Batch | excel_parser/services/jira_service.py:163-207 | the batch tracks exactly the rows it started with; each step adds what `BatchStepEntry` states |
| Jira.JiraService.BatchPartition | excel_parser/services/jira_service.py:163-207 | every row lands in exactly one of created, skipped and errors; every created issue was sent; only created and failed rows sent one |
| Jira.JiraService.BatchStepCounts | excel_parser/services/jira_service.py:169-205 | one row adds exactly one entry, and sends a request only when the row is created or fails |
| Jira.JiraService.BatchSkipsOnlyKeyed | excel_parser/services/jira_service.py:171-198 | every skipped row is skipped for "Already has Jira key"; the "Already exists" branch is never taken |
| Jira.JiraService.BatchUntouched | excel_parser/services/jira_service.py:169-207 | a row not in the batch keeps its Jira fields |
| Jira.JiraService.BatchSkipsKeyedRows | excel_parser/services/jira_service.py:171-177 | with no repeated row, the skipped entries are exactly the rows that had a key, in order |
| Jira.JiraService.BatchFinalLink | excel_parser/services/jira_service.py:169-185 | with no repeated row, a keyed row ends unchanged and any other row ends as its own `create_issue` left it |
| Jira.JiraService.BatchRow | excel_parser/services/jira_service.py:169-205 | one loop body yields the results, the requests and the row's Jira fields of one batch step |
| Jira.JiraService.CreateIssuesBatch | excel_parser/services/jira_service.py:148-207 | the results, the requests and every row's Jira fields are the batch fold over the rows' old fields |

## Left out

- Reading files, the network and the clock are not modelled as actions. Each becomes a parameter:
  - the sheet that pandas reads (one per engine for the parser);
  - `timezone.now()` (a `today` date, an instant `now`, or a clock per batch position);
  - the Jira server's answer, as a function of the request;
  - `str.format` of a template, as a function of the template and the row data.
- Logging, threads, transactions and `json.dumps` are not modelled. The preview takes the JSON text as given.
- Database errors raised in the middle of an operation are not modelled. These include the row `save()` in `create_issue` and a failing `create` during parsing. The only modelled exception of the parser is a failed read.
- Database ids are left out. Natural keys stand in for them, and new stored rows get consecutive ids from a `firstRowId` parameter. Filters given by id are modelled as filters by natural key.
- Filter keys that the report does not recognise are not modelled.
- Money is exact. These are not modelled:
  - `DecimalField` quantization to two places;
  - the `float()` conversion of the report values;
  - the `NaN`, `Infinity` and underscore spellings that `Decimal` also accepts (read as unparsable).
- Cells.ParseDate, Cells.ParseDecimal: only ASCII digits '0'..'9' are digits. `strptime`'s `%d`/`%m`/`%Y` and `Decimal` also accept other Unicode decimal digits (Arabic-Indic, full-width and so on). The model reads such text as unparsable.
- A sheet cell is missing, a number, a boolean, text or a pandas timestamp. A plain `datetime.datetime` or `datetime.time` cell is not modelled. `parse_date` returns None for such a cell (data_loader.py:33-35). `parse_excel_file` would try to store the raw object in the JSON field (excel_parser.py:67-72).
- Loader.NewEmployee: `get_or_create` (data_loader.py:170-179) sets only the name, the position and the hire date. The zero pay and `is_active = True` of a new employee are the field defaults of the `Employee` model, whose file is not part of this model; the model takes those two defaults as given. The zero pay decides that a first load of a login with non-zero pay writes a ledger entry (data_loader.py:242-261).
- `str.lower()` is modelled for ASCII, Latin-1 and Cyrillic capitals, as a length-preserving map. Other scripts pass through unchanged.
- The order of rows is not modelled in these places:
  - rows of the grouped custom report (the database may return them in any order);
  - department rows with equal totals in the payroll summary.
- The manager fields of departments, divisions and groups are not modelled. The loader never writes them.
- The `FileExtensionValidator` of the file field is not modelled. It runs only in forms.
- Jira's key length limit (50) and URL validation of the row fields are not modelled.
- `jsonb` may reorder the keys of stored row data. The model keeps keys in insertion order.
- Jira.JiraService.CreateIssuesBatch: the whole-batch lemmas `BatchSkipsKeyedRows` and `BatchFinalLink` require that no row object appears twice. The batch function itself also handles repeated rows.
- Jira.JiraService.CreateIssue: the remote answer depends only on the request; server-side state is not modelled.
- Ingestion.ParseExcelFile: it does not restate that new rows start without a Jira link. The `ExcelRow` constructor states that.
- Ingestion.ParsedSavesProgress: it requires the counter to start at or below the first checkpoint. A parse repeated on the same record starts from the old `processed_rows`, which can be higher.

## Notes on the source

- The payroll summary by department includes the group of employees without a department: `values('department__name')` yields a NULL key. The model follows the code, and `FotCoversActive` states it.
- A successful parse does not clear an `error_message` left by an earlier failure. The model keeps it.
- In the batch, the "Already exists" branch cannot be reached, because rows with a key are skipped before `create_issue`. `BatchSkipsOnlyKeyed` proves this.
