/**
 * The bulk loader (`DataLoaderService`): four per-row loops that get-or-create
 * departments, divisions, groups and employees from the rows of a sheet, counting
 * created against already-existing records, and append a compensation history entry
 * whenever an employee's pay changes.
 *
 * Each loop is specified by a fold over the rows (`DepartmentsLoaded`, ...), and the
 * `Store` class runs the loop in place with an invariant over the rows done so far.
 */
module Loader {
  import opened Wrappers
  import opened Text
  import opened Calendar
  import opened Cells
  import opened Registry

  /** One sheet row: column header to cell. */
  type Row = map<string, Cell>

  /** `row.get(key, default)`: the cell under that column when the sheet has the column. */
  function Get(row: Row, key: string, default: Cell): Cell {
    if key in row then row[key] else default
  }

  /** `str(row.get(primary, row.get(fallback, ''))).strip()`. */
  function TextField(row: Row, primary: string, fallback: string): string {
    Strip(Str(Get(row, primary, Get(row, fallback, TextCell("")))))
  }

  /** The whole store as a value: the directory, the registry and the ledger. */
  datatype Directory = Directory(
    departments: set<string>,
    divisions: set<DivisionKey>,
    groups: set<GroupKey>,
    employees: map<string, Employee>,
    history: seq<HistoryEntry>)

  /** Every reference in the store points at a record that exists. */
  predicate Consistent(d: Directory) {
    (forall k :: k in d.divisions ==> k.department in d.departments)
    && (forall g :: g in d.groups ==> g.division in d.divisions)
    && (forall l :: l in d.employees ==> EmployeeConsistent(d, d.employees[l]) && d.employees[l].login == l)
    && (forall i :: 0 <= i < |d.history| ==> d.history[i].employee in d.employees)
  }

  predicate EmployeeConsistent(d: Directory, e: Employee) {
    (e.department.Some? ==> e.department.value in d.departments)
    && (e.division.Some? ==> e.division.value in d.divisions)
    && (e.group.Some? ==> e.group.value in d.groups)
    && (e.functionalManager.Some? ==> e.functionalManager.value in d.employees)
    && (e.lineManager.Some? ==> e.lineManager.value in d.employees)
  }

  /** Counters returned by the directory loaders: `{'created': ..., 'updated': ...}`. */
  datatype Counts = Counts(created: nat, updated: nat)

  datatype Loaded = Loaded(dir: Directory, counts: Counts)

  /** The text of Django's MultipleObjectsReturned from `get()`; it counts at most 21 rows. */
  function MultipleReturned(model: string, n: nat): string {
    "get() returned more than one " + model + " -- it returned "
    + (if n < 21 then NatToString(n) else "more than 20") + "!"
  }

  /** The one element of a singleton set. */
  function TheOnly<T>(s: set<T>): (x: T)
    requires |s| == 1
    ensures s == {x}
  {
    var x :| x in s;
    SingletonIs(s, x);
    x
  }

  lemma {:induction false} SingletonIs<T>(s: set<T>, x: T)
    requires |s| == 1 && x in s
    ensures s == {x}
  {
    var rest := s - {x};
    assert |rest| == 0;
    assert rest == {};
  }

  /** The outcome of a `Model.objects.get(...)` lookup. */
  datatype Lookup<T> = NotFound | Found(value: T) | Ambiguous(count: nat)

  /** `get()` over the records its filter matched: none, exactly one, or several. */
  function GetOne<T>(matches: set<T>): (r: Lookup<T>)
    ensures r.NotFound? <==> matches == {}
    ensures r.Found? ==> matches == {r.value}
    ensures r.Ambiguous? ==> r.count == |matches| >= 2
  {
    if |matches| == 0 then
      assert matches == {};
      NotFound
    else if |matches| == 1 then
      Found(TheOnly(matches))
    else
      Ambiguous(|matches|)
  }

  /** `Model.objects.get(name=name)`: the records whose name is `name`. */
  function LookupByName<K>(records: set<K>, nameOf: K -> string, name: string): (r: Lookup<K>)
    ensures r.NotFound? <==> forall k :: k in records ==> nameOf(k) != name
    ensures r.Found? ==> r.value in records && nameOf(r.value) == name
                         && forall k :: k in records && nameOf(k) == name ==> k == r.value
    ensures r.Ambiguous? ==> r.count >= 2
  {
    var matches := set k | k in records && nameOf(k) == name;
    assert forall k :: k in records && nameOf(k) == name ==> k in matches;
    GetOne(matches)
  }

  /** `Division.objects.get(name=name)`: divisions of that name in any department. */
  function LookupDivision(divs: set<DivisionKey>, name: string): Lookup<DivisionKey> {
    LookupByName(divs, (k: DivisionKey) => k.name, name)
  }

  /** `Group.objects.get(name=name)`: groups of that name in any division. */
  function LookupGroup(groups: set<GroupKey>, name: string): Lookup<GroupKey> {
    LookupByName(groups, (k: GroupKey) => k.name, name)
  }

  // ---------------------------------------------------------------------------
  // load_departments_from_file

  function DepartmentName(row: Row): string {
    TextField(row, "Название", "name")
  }

  /** The department name of every row, in row order. */
  function DepartmentNamesOf(rows: seq<Row>): (names: seq<string>)
    ensures |names| == |rows| && forall i :: 0 <= i < |rows| ==> names[i] == DepartmentName(rows[i])
  {
    seq(|rows|, i requires 0 <= i < |rows| => DepartmentName(rows[i]))
  }

  /** The non-empty names among `names`. */
  function NonEmpty(names: seq<string>): set<string> {
    if names == [] then {}
    else NonEmpty(names[..|names| - 1]) + (if names[|names| - 1] == "" then {} else {names[|names| - 1]})
  }

  /** How many of `names` are non-empty. */
  function NonEmptyCount(names: seq<string>): nat {
    if names == [] then 0
    else NonEmptyCount(names[..|names| - 1]) + (if names[|names| - 1] == "" then 0 else 1)
  }

  /** The department loop over rows with the given names, starting from `d`. */
  function DepartmentsLoaded(d: Directory, names: seq<string>): (r: Loaded)
    ensures r.dir == d.(departments := r.dir.departments) && d.departments <= r.dir.departments
  {
    if names == [] then Loaded(d, Counts(0, 0))
    else DepartmentStep(DepartmentsLoaded(d, names[..|names| - 1]), names[|names| - 1])
  }

  /** One pass of the department loop body. */
  function DepartmentStep(prev: Loaded, name: string): Loaded {
    if name == "" then prev
    else if name in prev.dir.departments then Loaded(prev.dir, prev.counts.(updated := prev.counts.updated + 1))
    else Loaded(prev.dir.(departments := prev.dir.departments + {name}),
                prev.counts.(created := prev.counts.created + 1))
  }

  /**
   * Every row with a name is counted once, as created or as already there; afterwards the
   * departments are the old ones plus the named ones, `created` is the number of names that
   * were new, and nothing else in the store changes.
   */
  lemma {:induction false} DepartmentsAccounted(d: Directory, names: seq<string>)
    ensures var r := DepartmentsLoaded(d, names);
            r.counts.created + r.counts.updated == NonEmptyCount(names)
            && r.dir.departments == d.departments + NonEmpty(names)
            && r.counts.created == |r.dir.departments - d.departments|
            && r.dir == d.(departments := r.dir.departments)
  {
    if names != [] {
      var init := names[..|names| - 1];
      DepartmentsAccounted(d, init);
      DepartmentStepCounts(d.departments, DepartmentsLoaded(d, init), names[|names| - 1]);
    }
  }

  /** One named row is counted once, adds its name, and is created exactly when the name is new. */
  lemma DepartmentStepCounts(base: set<string>, prev: Loaded, name: string)
    requires base <= prev.dir.departments
    ensures var next := DepartmentStep(prev, name);
            next.counts.created + next.counts.updated
              == prev.counts.created + prev.counts.updated + (if name != "" then 1 else 0)
            && next.dir.departments == prev.dir.departments + (if name != "" then {name} else {})
            && next.counts.created - prev.counts.created
              == |next.dir.departments - base| - |prev.dir.departments - base|
  {
    if name != "" {
      GrowthCount(base, prev.dir.departments, name);
    }
  }

  /** Loading names that all exist already creates nothing and changes nothing. */
  lemma {:induction false} DepartmentsPresent(d: Directory, names: seq<string>)
    requires NonEmpty(names) <= d.departments
    ensures DepartmentsLoaded(d, names) == Loaded(d, Counts(0, NonEmptyCount(names)))
  {
    if names != [] {
      DepartmentsPresent(d, names[..|names| - 1]);
    }
  }

  /** Loading the same rows a second time creates no department and changes nothing. */
  lemma {:induction false} DepartmentsRerun(d: Directory, names: seq<string>)
    ensures var once := DepartmentsLoaded(d, names);
            DepartmentsLoaded(once.dir, names) == Loaded(once.dir, Counts(0, NonEmptyCount(names)))
  {
    DepartmentsAccounted(d, names);
    DepartmentsPresent(DepartmentsLoaded(d, names).dir, names);
  }

  /** The department loop keeps every reference of the store intact. */
  lemma {:induction false} DepartmentsKeepConsistent(d: Directory, names: seq<string>)
    requires Consistent(d)
    ensures Consistent(DepartmentsLoaded(d, names).dir)
  {
    DepartmentsAccounted(d, names);
    var r := DepartmentsLoaded(d, names).dir;
    forall l | l in r.employees ensures EmployeeConsistent(r, r.employees[l]) {
      assert EmployeeConsistent(d, d.employees[l]);
    }
  }

  // ---------------------------------------------------------------------------
  // load_divisions_from_file

  /** The division a row names, as (department name, division name). */
  function DivisionOfRow(row: Row): DivisionKey {
    DivisionKey(TextField(row, "Департамент", "department"), TextField(row, "Название", "name"))
  }

  function DivisionsOf(rows: seq<Row>): (keys: seq<DivisionKey>)
    ensures |keys| == |rows| && forall i :: 0 <= i < |rows| ==> keys[i] == DivisionOfRow(rows[i])
  {
    seq(|rows|, i requires 0 <= i < |rows| => DivisionOfRow(rows[i]))
  }

  /** A row that names both parts and whose department exists. */
  predicate DivisionPlaceable(departments: set<string>, k: DivisionKey) {
    k.department != "" && k.name != "" && k.department in departments
  }

  function PlaceableDivisions(departments: set<string>, keys: seq<DivisionKey>): set<DivisionKey> {
    if keys == [] then {}
    else
      var k := keys[|keys| - 1];
      PlaceableDivisions(departments, keys[..|keys| - 1]) + (if DivisionPlaceable(departments, k) then {k} else {})
  }

  function PlaceableCount(departments: set<string>, keys: seq<DivisionKey>): nat {
    if keys == [] then 0
    else PlaceableCount(departments, keys[..|keys| - 1]) + (if DivisionPlaceable(departments, keys[|keys| - 1]) then 1 else 0)
  }

  /** The division loop: rows with an empty name or an unknown department are skipped. */
  function DivisionsLoaded(d: Directory, keys: seq<DivisionKey>): (r: Loaded)
    ensures r.dir == d.(divisions := r.dir.divisions) && d.divisions <= r.dir.divisions
  {
    if keys == [] then Loaded(d, Counts(0, 0))
    else DivisionStep(DivisionsLoaded(d, keys[..|keys| - 1]), keys[|keys| - 1])
  }

  /** One pass of the division loop body. */
  function DivisionStep(prev: Loaded, k: DivisionKey): Loaded {
    if k.department == "" || k.name == "" then prev
    else if k.department !in prev.dir.departments then prev
    else if k in prev.dir.divisions then Loaded(prev.dir, prev.counts.(updated := prev.counts.updated + 1))
    else Loaded(prev.dir.(divisions := prev.dir.divisions + {k}),
                prev.counts.(created := prev.counts.created + 1))
  }

  /** The division loop changes nothing but the division set, and every division it adds
      belongs to an existing department. */
  lemma {:induction false} DivisionsOnlyAdd(d: Directory, keys: seq<DivisionKey>)
    ensures var r := DivisionsLoaded(d, keys);
            r.dir == d.(divisions := r.dir.divisions)
            && d.divisions <= r.dir.divisions
            && forall k :: k in r.dir.divisions - d.divisions ==> k.department in d.departments
  {
    if keys != [] {
      DivisionsOnlyAdd(d, keys[..|keys| - 1]);
    }
  }

  /**
   * Each row with both names and an existing department is counted once, and its
   * (department, name) key exists afterwards; skipped rows change nothing; `created` is
   * the number of new keys.
   */
  lemma {:induction false} DivisionsAccounted(d: Directory, keys: seq<DivisionKey>)
    ensures var r := DivisionsLoaded(d, keys);
            r.counts.created + r.counts.updated == PlaceableCount(d.departments, keys)
            && r.dir.divisions == d.divisions + PlaceableDivisions(d.departments, keys)
            && r.counts.created == |r.dir.divisions - d.divisions|
  {
    if keys != [] {
      var init := keys[..|keys| - 1];
      DivisionsAccounted(d, init);
      DivisionStepCounts(d.departments, d.divisions, DivisionsLoaded(d, init), keys[|keys| - 1]);
    }
  }

  /** One placeable row is counted once, adds its key, and is created exactly when the key is new;
      any other row changes nothing. */
  lemma DivisionStepCounts(departments: set<string>, base: set<DivisionKey>, prev: Loaded, k: DivisionKey)
    requires prev.dir.departments == departments && base <= prev.dir.divisions
    ensures var next := DivisionStep(prev, k);
            var placed := DivisionPlaceable(departments, k);
            next.counts.created + next.counts.updated
              == prev.counts.created + prev.counts.updated + (if placed then 1 else 0)
            && next.dir.divisions == prev.dir.divisions + (if placed then {k} else {})
            && next.counts.created - prev.counts.created
              == |next.dir.divisions - base| - |prev.dir.divisions - base|
  {
    if DivisionPlaceable(departments, k) {
      GrowthCount(base, prev.dir.divisions, k);
    }
  }

  /** The division loop keeps every reference of the store intact. */
  lemma {:induction false} DivisionsKeepConsistent(d: Directory, keys: seq<DivisionKey>)
    requires Consistent(d)
    ensures Consistent(DivisionsLoaded(d, keys).dir)
  {
    DivisionsOnlyAdd(d, keys);
    var r := DivisionsLoaded(d, keys).dir;
    forall l | l in r.employees ensures EmployeeConsistent(r, r.employees[l]) {
      assert EmployeeConsistent(d, d.employees[l]);
    }
  }

  lemma {:induction false} DivisionsPresent(d: Directory, keys: seq<DivisionKey>)
    requires PlaceableDivisions(d.departments, keys) <= d.divisions
    ensures DivisionsLoaded(d, keys) == Loaded(d, Counts(0, PlaceableCount(d.departments, keys)))
  {
    if keys != [] {
      DivisionsPresent(d, keys[..|keys| - 1]);
    }
  }

  /** Loading the same rows a second time creates no division and changes nothing. */
  lemma {:induction false} DivisionsRerun(d: Directory, keys: seq<DivisionKey>)
    ensures var once := DivisionsLoaded(d, keys);
            DivisionsLoaded(once.dir, keys) == Loaded(once.dir, Counts(0, PlaceableCount(d.departments, keys)))
  {
    DivisionsAccounted(d, keys);
    DivisionsOnlyAdd(d, keys);
    DivisionsPresent(DivisionsLoaded(d, keys).dir, keys);
  }

  // ---------------------------------------------------------------------------
  // load_groups_from_file

  /** What a group row names: the division name and the group name. */
  datatype GroupRef = GroupRef(division: string, name: string)

  function GroupOfRow(row: Row): GroupRef {
    GroupRef(TextField(row, "Отдел", "division"), TextField(row, "Название", "name"))
  }

  function GroupsOf(rows: seq<Row>): (refs: seq<GroupRef>)
    ensures |refs| == |rows| && forall i :: 0 <= i < |rows| ==> refs[i] == GroupOfRow(rows[i])
  {
    seq(|rows|, i requires 0 <= i < |rows| => GroupOfRow(rows[i]))
  }

  datatype GroupsOutcome = GroupsOutcome(dir: Directory, result: Result<Counts>)

  /** The group loop. The parent division is looked up by name alone; a name shared by
      several divisions raises, which ends the whole batch with that error. */
  function GroupsLoaded(d: Directory, refs: seq<GroupRef>): (r: GroupsOutcome)
    ensures r.dir == d.(groups := r.dir.groups) && d.groups <= r.dir.groups
  {
    if refs == [] then GroupsOutcome(d, Success(Counts(0, 0)))
    else GroupStep(GroupsLoaded(d, refs[..|refs| - 1]), refs[|refs| - 1])
  }

  /** One pass of the group loop body; once the batch has failed, later rows do nothing. */
  function GroupStep(prev: GroupsOutcome, g: GroupRef): GroupsOutcome {
    if prev.result.Failure? || g.division == "" || g.name == "" then prev
    else
      match LookupDivision(prev.dir.divisions, g.division)
      case NotFound => prev
      case Ambiguous(n) => GroupsOutcome(prev.dir, Failure(MultipleReturned("Division", n)))
      case Found(div) =>
        var c := prev.result.value;
        var k := GroupKey(div, g.name);
        if k in prev.dir.groups then GroupsOutcome(prev.dir, Success(c.(updated := c.updated + 1)))
        else GroupsOutcome(prev.dir.(groups := prev.dir.groups + {k}), Success(c.(created := c.created + 1)))
  }

  /** The group a row get-or-creates against the given divisions, if its division resolves. */
  function PlacedGroup(divisions: set<DivisionKey>, g: GroupRef): Option<GroupKey> {
    if g.division == "" || g.name == "" then None
    else match LookupDivision(divisions, g.division)
      case Found(div) => Some(GroupKey(div, g.name))
      case _ => None
  }

  /** Whether a row names a division that several departments share. */
  predicate GroupRefAmbiguous(divisions: set<DivisionKey>, g: GroupRef) {
    g.division != "" && g.name != "" && LookupDivision(divisions, g.division).Ambiguous?
  }

  function PlacedGroups(divisions: set<DivisionKey>, refs: seq<GroupRef>): set<GroupKey> {
    if refs == [] then {}
    else
      var g := PlacedGroup(divisions, refs[|refs| - 1]);
      PlacedGroups(divisions, refs[..|refs| - 1]) + (if g.Some? then {g.value} else {})
  }

  function PlacedCount(divisions: set<DivisionKey>, refs: seq<GroupRef>): nat {
    if refs == [] then 0
    else PlacedCount(divisions, refs[..|refs| - 1]) + (if PlacedGroup(divisions, refs[|refs| - 1]).Some? then 1 else 0)
  }

  /** The group loop changes nothing but the group set, and every group it adds belongs
      to an existing division. */
  lemma {:induction false} GroupsOnlyAdd(d: Directory, refs: seq<GroupRef>)
    ensures var r := GroupsLoaded(d, refs);
            r.dir == d.(groups := r.dir.groups)
            && d.groups <= r.dir.groups
            && forall k :: k in r.dir.groups - d.groups ==> k.division in d.divisions
  {
    if refs != [] {
      GroupsOnlyAdd(d, refs[..|refs| - 1]);
    }
  }

  /**
   * The batch fails exactly when some row names an ambiguous division, and the failure
   * carries Django's message for it. Otherwise every row whose division resolves is
   * counted once and its group exists afterwards, and `created` is the number of new groups.
   */
  lemma {:induction false} GroupsAccounted(d: Directory, refs: seq<GroupRef>)
    ensures var r := GroupsLoaded(d, refs);
            (r.result.Failure? <==> exists i :: 0 <= i < |refs| && GroupRefAmbiguous(d.divisions, refs[i]))
            && (r.result.Success? ==>
                  r.result.value.created + r.result.value.updated == PlacedCount(d.divisions, refs)
                  && r.dir.groups == d.groups + PlacedGroups(d.divisions, refs)
                  && r.result.value.created == |r.dir.groups - d.groups|)
  {
    GroupsFailIff(d, refs);
    GroupsCounted(d, refs);
  }

  /** One row of a batch that has not failed: it fails exactly on an ambiguous division,
      and otherwise adds and counts the group it places, if any. */
  lemma GroupStepCases(divisions: set<DivisionKey>, prev: GroupsOutcome, g: GroupRef)
    requires prev.result.Success? && prev.dir.divisions == divisions
    ensures var r := GroupStep(prev, g);
            var p := PlacedGroup(divisions, g);
            var c := prev.result.value;
            (r.result.Failure? <==> GroupRefAmbiguous(divisions, g))
            && r.dir.divisions == divisions
            && (r.result.Success? ==>
                  r.dir.groups == prev.dir.groups + (if p.Some? then {p.value} else {})
                  && r.result.value.created + r.result.value.updated == c.created + c.updated + (if p.Some? then 1 else 0)
                  && r.result.value.created == c.created + (if p.Some? && p.value !in prev.dir.groups then 1 else 0))
  {
  }

  /** The batch fails exactly when some row names an ambiguous division. */
  lemma {:induction false} GroupsFailIff(d: Directory, refs: seq<GroupRef>)
    ensures GroupsLoaded(d, refs).dir.divisions == d.divisions
    ensures GroupsLoaded(d, refs).result.Failure? <==> exists i :: 0 <= i < |refs| && GroupRefAmbiguous(d.divisions, refs[i])
  {
    if refs != [] {
      var init := refs[..|refs| - 1];
      GroupsFailIff(d, init);
      var prev := GroupsLoaded(d, init);
      if prev.result.Failure? {
        var i :| 0 <= i < |init| && GroupRefAmbiguous(d.divisions, init[i]);
        assert refs[i] == init[i];
      } else {
        assert forall i :: 0 <= i < |init| ==> refs[i] == init[i];
        GroupStepCases(d.divisions, prev, refs[|refs| - 1]);
      }
    }
  }

  /** A batch that goes through counts every placed row once and adds exactly the placed groups. */
  lemma {:induction false} GroupsCounted(d: Directory, refs: seq<GroupRef>)
    ensures var r := GroupsLoaded(d, refs);
            r.result.Success? ==>
              r.result.value.created + r.result.value.updated == PlacedCount(d.divisions, refs)
              && r.dir.groups == d.groups + PlacedGroups(d.divisions, refs)
              && r.result.value.created == |r.dir.groups - d.groups|
  {
    if refs != [] {
      var init := refs[..|refs| - 1];
      GroupsCounted(d, init);
      var prev := GroupsLoaded(d, init);
      if prev.result.Success? {
        var g := refs[|refs| - 1];
        GroupCountedStep(d.divisions, d.groups, PlacedGroups(d.divisions, init), PlacedCount(d.divisions, init), prev, g);
      }
    }
  }

  /** The counting facts of `GroupsCounted` carry over one more row. */
  lemma GroupCountedStep(divisions: set<DivisionKey>, base: set<GroupKey>, placed: set<GroupKey>, count: nat,
                         prev: GroupsOutcome, g: GroupRef)
    requires prev.dir.divisions == divisions && prev.result.Success?
    requires prev.result.value.created + prev.result.value.updated == count
    requires prev.dir.groups == base + placed && prev.result.value.created == |prev.dir.groups - base|
    ensures var r := GroupStep(prev, g);
            var p := PlacedGroup(divisions, g);
            r.result.Success? ==>
              r.result.value.created + r.result.value.updated == count + (if p.Some? then 1 else 0)
              && r.dir.groups == base + placed + (if p.Some? then {p.value} else {})
              && r.result.value.created == |r.dir.groups - base|
  {
    GroupStepCases(prev.dir.divisions, prev, g);
    var p := PlacedGroup(prev.dir.divisions, g);
    if p.Some? {
      GrowthCount(base, prev.dir.groups, p.value);
    }
  }

  /** Adding an element to a superset of `base` grows the difference by one exactly when
      the element is new. */
  lemma GrowthCount<T>(base: set<T>, cur: set<T>, x: T)
    requires base <= cur
    ensures |cur + {x} - base| == |cur - base| + (if x in cur then 0 else 1)
  {
    if x in cur {
      assert cur + {x} == cur;
    } else {
      assert cur + {x} - base == (cur - base) + {x};
    }
  }

  /** The group loop keeps every reference of the store intact, also when it aborts. */
  lemma {:induction false} GroupsKeepConsistent(d: Directory, refs: seq<GroupRef>)
    requires Consistent(d)
    ensures Consistent(GroupsLoaded(d, refs).dir)
  {
    GroupsOnlyAdd(d, refs);
    var r := GroupsLoaded(d, refs).dir;
    forall l | l in r.employees ensures EmployeeConsistent(r, r.employees[l]) {
      assert EmployeeConsistent(d, d.employees[l]);
    }
  }

  /** Once a row has aborted the batch, later rows are not looked at. */
  lemma {:induction false} GroupsAbortSticks(d: Directory, refs: seq<GroupRef>, more: seq<GroupRef>)
    requires GroupsLoaded(d, refs).result.Failure?
    ensures GroupsLoaded(d, refs + more) == GroupsLoaded(d, refs)
    decreases |more|
  {
    if more == [] {
      assert refs + more == refs;
    } else {
      var init := more[..|more| - 1];
      GroupsAbortSticks(d, refs, init);
      assert (refs + more)[..|refs + more| - 1] == refs + init;
    }
  }

  /** The batch up to row `i` is the batch before it followed by that row. */
  lemma GroupsLoadedNext(d: Directory, refs: seq<GroupRef>, i: nat)
    requires i < |refs|
    ensures GroupsLoaded(d, refs[..i + 1]) == GroupStep(GroupsLoaded(d, refs[..i]), refs[i])
  {
    assert refs[..i + 1][..i] == refs[..i];
  }

  /** A batch that fails at row `i` ends as it stood after that row. */
  lemma GroupsAbortAt(d: Directory, refs: seq<GroupRef>, i: nat)
    requires i < |refs| && GroupsLoaded(d, refs[..i + 1]).result.Failure?
    ensures GroupsLoaded(d, refs) == GroupsLoaded(d, refs[..i + 1])
  {
    GroupsAbortSticks(d, refs[..i + 1], refs[i + 1..]);
    assert refs[..i + 1] + refs[i + 1..] == refs;
  }

  lemma {:induction false} GroupsPresent(d: Directory, refs: seq<GroupRef>)
    requires PlacedGroups(d.divisions, refs) <= d.groups
    requires forall i :: 0 <= i < |refs| ==> !GroupRefAmbiguous(d.divisions, refs[i])
    ensures GroupsLoaded(d, refs) == GroupsOutcome(d, Success(Counts(0, PlacedCount(d.divisions, refs))))
  {
    if refs != [] {
      var init := refs[..|refs| - 1];
      assert forall i :: 0 <= i < |init| ==> init[i] == refs[i];
      GroupsPresent(d, init);
      assert !GroupRefAmbiguous(d.divisions, refs[|refs| - 1]);
    }
  }

  /** A batch that went through, loaded a second time, creates no group and changes nothing. */
  lemma {:induction false} GroupsRerun(d: Directory, refs: seq<GroupRef>)
    requires GroupsLoaded(d, refs).result.Success?
    ensures var once := GroupsLoaded(d, refs);
            GroupsLoaded(once.dir, refs) == GroupsOutcome(once.dir, Success(Counts(0, PlacedCount(d.divisions, refs))))
  {
    GroupsAccounted(d, refs);
    GroupsOnlyAdd(d, refs);
    GroupsPresent(GroupsLoaded(d, refs).dir, refs);
  }

  // ---------------------------------------------------------------------------
  // load_employees_from_file

  /** What one employee row carries, each column read the way the loader reads it. */
  datatype EmployeeRow = EmployeeRow(
    login: string,
    fullName: string,
    position: string,
    hireDate: Option<Date>,
    department: string,
    division: string,
    group: string,
    functionalManager: string,
    lineManager: string,
    pay: Pay)

  function EmployeeRowOf(row: Row): EmployeeRow {
    EmployeeRow(
      TextField(row, "Логин", "login"),
      TextField(row, "ФИО", "full_name"),
      TextField(row, "Должность", "position"),
      ParseDate(Get(row, "Дата принятия", Get(row, "hire_date", NoneCell))),
      TextField(row, "Департамент", "department"),
      TextField(row, "Отдел", "division"),
      TextField(row, "Группа", "group"),
      TextField(row, "Функциональный руководитель", "functional_manager"),
      TextField(row, "Линейный руководитель", "line_manager"),
      Pay(ParseDecimal(Get(row, "Оклад", Get(row, "salary", Get(row, "current_salary", NoneCell)))),
          ParseDecimal(Get(row, "Квартальная премия", Get(row, "quarterly_bonus", NoneCell))),
          ParseDecimal(Get(row, "Месячная премия", Get(row, "monthly_bonus", NoneCell))),
          ParseDecimal(Get(row, "Годовая премия", Get(row, "yearly_bonus", NoneCell)))))
  }

  /**
   * Each field reads its Russian column when the sheet has it, and its English column only
   * otherwise; a missing column reads as blank text, and a missing salary as 0.00, which
   * also tries `current_salary` last.
   */
  lemma EmployeeRowOfColumns(row: Row)
    ensures var r := EmployeeRowOf(row);
            ("Логин" in row ==> r.login == Strip(Str(row["Логин"])))
            && ("Логин" !in row && "login" in row ==> r.login == Strip(Str(row["login"])))
            && ("Логин" !in row && "login" !in row ==> r.login == "")
            && ("Отдел" in row ==> r.division == Strip(Str(row["Отдел"])))
            && ("Отдел" !in row && "division" in row ==> r.division == Strip(Str(row["division"])))
            && ("Оклад" in row ==> r.pay.salary == ParseDecimal(row["Оклад"]))
            && ("Оклад" !in row && "salary" in row ==> r.pay.salary == ParseDecimal(row["salary"]))
            && ("Оклад" !in row && "salary" !in row && "current_salary" in row ==> r.pay.salary == ParseDecimal(row["current_salary"]))
            && ("Оклад" !in row && "salary" !in row && "current_salary" !in row ==> r.pay.salary == 0.0)
  {
    StripOfTrimmed("");
  }

  function EmployeeRowsOf(rows: seq<Row>): (rs: seq<EmployeeRow>)
    ensures |rs| == |rows| && forall i :: 0 <= i < |rows| ==> rs[i] == EmployeeRowOf(rows[i])
  {
    seq(|rows|, i requires 0 <= i < |rows| => EmployeeRowOf(rows[i]))
  }

  /** The comment of every ledger entry the loader writes. */
  const ImportComment := "Загружено из файла"

  /** An error line of the employee report: `f"Row {idx + 2}: {message}"`. */
  function RowMessage(rowNumber: nat, message: string): string {
    "Row " + NatToString(rowNumber) + ": " + message
  }

  /**
   * The record get_or_create inserts for a new login: the row's full name, its position
   * (None when blank), its hire date or else today; no placement, no managers, zero pay,
   * active.
   */
  function NewEmployee(r: EmployeeRow, today: Date): (e: Employee)
    ensures e.login == r.login && e.pay == ZeroPay && e.isActive
    ensures e.department.None? && e.division.None? && e.group.None?
    ensures e.functionalManager.None? && e.lineManager.None?
    ensures e.position.None? <==> r.position == ""
    ensures r.hireDate.Some? ==> e.hireDate == r.hireDate.value
    ensures r.hireDate.None? ==> e.hireDate == today
  {
    Employee(r.login, r.fullName, if r.position == "" then None else Some(r.position),
             r.hireDate.GetOr(today), None, None, None, None, None, ZeroPay, true)
  }

  /** The pay a login holds before the row is applied: a new employee starts at zero. */
  function PayBefore(d: Directory, login: string): Pay {
    if login in d.employees then d.employees[login].pay else ZeroPay
  }

  /**
   * The placement and manager lookups applied to `e`. Each lookup assigns only when it
   * finds its record; a division or group name shared by several records raises, and the
   * row fails with Django's message.
   */
  function Place(d: Directory, e: Employee, r: EmployeeRow): (res: Result<Employee>)
    ensures res.Failure? <==>
              (r.division != "" && LookupDivision(d.divisions, r.division).Ambiguous?)
              || (r.group != "" && LookupGroup(d.groups, r.group).Ambiguous?)
    ensures r.division != "" && LookupDivision(d.divisions, r.division).Ambiguous? ==>
              res == Failure(MultipleReturned("Division", LookupDivision(d.divisions, r.division).count))
    ensures res.Success? ==>
              res.value == e.(department := res.value.department, division := res.value.division, group := res.value.group,
                              functionalManager := res.value.functionalManager, lineManager := res.value.lineManager)
  {
    var e1 := if r.department != "" && r.department in d.departments then e.(department := Some(r.department)) else e;
    var divLookup := if r.division == "" then NotFound else LookupDivision(d.divisions, r.division);
    var groupLookup := if r.group == "" then NotFound else LookupGroup(d.groups, r.group);
    if divLookup.Ambiguous? then Failure(MultipleReturned("Division", divLookup.count))
    else
      var e2 := if divLookup.Found? then e1.(division := Some(divLookup.value)) else e1;
      if groupLookup.Ambiguous? then Failure(MultipleReturned("Group", groupLookup.count))
      else
        var e3 := if groupLookup.Found? then e2.(group := Some(groupLookup.value)) else e2;
        var e4 := if r.functionalManager != "" && r.functionalManager in d.employees
                  then e3.(functionalManager := Some(r.functionalManager)) else e3;
        var e5 := if r.lineManager != "" && r.lineManager in d.employees
                  then e4.(lineManager := Some(r.lineManager)) else e4;
        Success(e5)
  }

  datatype RowOutcome = Created | Updated | Failed(message: string)

  datatype RowApplied = RowApplied(dir: Directory, outcome: RowOutcome)

  /** One pass of the employee loop body, for the row numbered `rowNumber`. */
  function EmployeeStep(d: Directory, r: EmployeeRow, rowNumber: nat, updateHistory: bool, today: Date): (res: RowApplied)
    ensures r.login == "" ==> res == RowApplied(d, Failed(RowMessage(rowNumber, "Missing login")))
    ensures r.login != "" ==> res.dir.employees.Keys == d.employees.Keys + {r.login}
    ensures forall l :: l in d.employees && l != r.login ==> l in res.dir.employees && res.dir.employees[l] == d.employees[l]
    ensures res.dir.departments == d.departments && res.dir.divisions == d.divisions && res.dir.groups == d.groups
    ensures res.outcome.Created? ==> r.login !in d.employees
    ensures res.outcome.Updated? ==> r.login in d.employees
    ensures res.dir.history == d.history
            || (res.dir.history == d.history + [HistoryEntry(r.login, today, PayBefore(d, r.login), r.pay, ImportComment)]
                && PayBefore(d, r.login) != r.pay && updateHistory && !res.outcome.Failed?)
  {
    if r.login == "" then RowApplied(d, Failed(RowMessage(rowNumber, "Missing login")))
    else
      var isNew := r.login !in d.employees;
      var base := if isNew then NewEmployee(r, today) else d.employees[r.login];
      var d1 := d.(employees := d.employees[r.login := base]);
      match Place(d1, base, r)
      case Failure(message) => RowApplied(d1, Failed(RowMessage(rowNumber, message)))
      case Success(placed) =>
        var saved := placed.(pay := r.pay);
        var entries := if updateHistory && base.pay != r.pay
                       then [HistoryEntry(r.login, today, base.pay, r.pay, ImportComment)] else [];
        RowApplied(d1.(employees := d1.employees[r.login := saved], history := d1.history + entries),
                   if isNew then Created else Updated)
  }

  /** The employee report: `{'created': ..., 'updated': ..., 'errors': [...]}`. */
  datatype Report = Report(created: nat, updated: nat, errors: seq<string>)

  function Tally(rep: Report, outcome: RowOutcome): Report {
    match outcome
    case Created => rep.(created := rep.created + 1)
    case Updated => rep.(updated := rep.updated + 1)
    case Failed(message) => rep.(errors := rep.errors + [message])
  }

  datatype EmployeesOutcome = EmployeesOutcome(dir: Directory, report: Report)

  /** The employee loop: row i (counting from 0) is reported as row i + 2. */
  function EmployeesLoaded(d: Directory, rs: seq<EmployeeRow>, updateHistory: bool, today: Date): (r: EmployeesOutcome)
    ensures r.dir.departments == d.departments && r.dir.divisions == d.divisions && r.dir.groups == d.groups
    ensures d.employees.Keys <= r.dir.employees.Keys
  {
    if rs == [] then EmployeesOutcome(d, Report(0, 0, []))
    else
      var prev := EmployeesLoaded(d, rs[..|rs| - 1], updateHistory, today);
      var step := EmployeeStep(prev.dir, rs[|rs| - 1], |rs| + 1, updateHistory, today);
      EmployeesOutcome(step.dir, Tally(prev.report, step.outcome))
  }

  /** The logins of the rows, in row order. */
  function Logins(rs: seq<EmployeeRow>): (ls: seq<string>)
    ensures |ls| == |rs| && forall i :: 0 <= i < |rs| ==> ls[i] == rs[i].login
  {
    seq(|rs|, i requires 0 <= i < |rs| => rs[i].login)
  }

  /** The record the row works on: the stored one, or the one get_or_create inserts. */
  function Fetched(d: Directory, r: EmployeeRow, today: Date): Employee {
    if r.login in d.employees then d.employees[r.login] else NewEmployee(r, today)
  }

  /**
   * The row fails exactly when its login is empty or its division or group name is shared
   * by several records. A failed row with a login still leaves the fetched record stored,
   * since get_or_create has already saved it, and adds no ledger entry.
   */
  lemma {:induction false} EmployeeStepFails(d: Directory, r: EmployeeRow, n: nat, updateHistory: bool, today: Date)
    ensures var res := EmployeeStep(d, r, n, updateHistory, today);
            (res.outcome.Failed? <==>
               r.login == ""
               || (r.division != "" && LookupDivision(d.divisions, r.division).Ambiguous?)
               || (r.group != "" && LookupGroup(d.groups, r.group).Ambiguous?))
            && (res.outcome.Failed? && r.login != "" ==>
                  res.dir == d.(employees := d.employees[r.login := Fetched(d, r, today)]))
  {
  }

  /**
   * The history rule. After a row that went through, the four pay fields are the row's
   * parsed values, and exactly one entry holding the full before and after pay is appended
   * when `update_salary_history` holds and some component changed; none otherwise.
   */
  lemma {:induction false} EmployeeStepPay(d: Directory, r: EmployeeRow, n: nat, updateHistory: bool, today: Date)
    requires r.login != ""
    ensures var res := EmployeeStep(d, r, n, updateHistory, today);
            !res.outcome.Failed? ==>
              res.dir.employees[r.login].pay == r.pay
              && (updateHistory && PayBefore(d, r.login) != r.pay ==>
                    res.dir.history == d.history + [HistoryEntry(r.login, today, PayBefore(d, r.login), r.pay, ImportComment)])
              && (!updateHistory || PayBefore(d, r.login) == r.pay ==> res.dir.history == d.history)
  {
  }

  /**
   * Each placement and manager field holds what its lookup found, and keeps the record's
   * value when the name is blank or finds nothing; no other field changes.
   */
  lemma {:induction false} PlaceAssigns(d: Directory, e: Employee, r: EmployeeRow)
    requires Place(d, e, r).Success?
    ensures var p := Place(d, e, r).value;
            p == e.(department := p.department, division := p.division, group := p.group,
                    functionalManager := p.functionalManager, lineManager := p.lineManager)
            && p.department == (if r.department != "" && r.department in d.departments
                                then Some(r.department) else e.department)
            && p.functionalManager == (if r.functionalManager != "" && r.functionalManager in d.employees
                                       then Some(r.functionalManager) else e.functionalManager)
            && p.lineManager == (if r.lineManager != "" && r.lineManager in d.employees
                                 then Some(r.lineManager) else e.lineManager)
  {
  }

  /** A division name found once is assigned; a blank or unknown name leaves the field. */
  lemma {:induction false} PlaceDivision(d: Directory, e: Employee, r: EmployeeRow)
    requires Place(d, e, r).Success?
    ensures var p := Place(d, e, r).value;
            (r.division != "" && (exists k :: k in d.divisions && k.name == r.division) ==>
               p.division.Some? && p.division.value in d.divisions && p.division.value.name == r.division)
            && (r.division == "" || (forall k :: k in d.divisions ==> k.name != r.division) ==>
               p.division == e.division)
  {
    if r.division != "" {
      var l := LookupDivision(d.divisions, r.division);
      assert l.Found? || l.NotFound?;
    }
  }

  /** A group name found once is assigned; a blank or unknown name leaves the field. */
  lemma {:induction false} PlaceGroup(d: Directory, e: Employee, r: EmployeeRow)
    requires Place(d, e, r).Success?
    ensures var p := Place(d, e, r).value;
            (r.group != "" && (exists k :: k in d.groups && k.name == r.group) ==>
               p.group.Some? && p.group.value in d.groups && p.group.value.name == r.group)
            && (r.group == "" || (forall k :: k in d.groups ==> k.name != r.group) ==>
               p.group == e.group)
  {
    if r.group != "" {
      var l := LookupGroup(d.groups, r.group);
      assert l.Found? || l.NotFound?;
    }
  }

  /** After a row that went through, the stored record is the fetched one placed by
      the row's lookups and carrying the row's pay. */
  lemma {:induction false} EmployeeStepSaves(d: Directory, r: EmployeeRow, n: nat, updateHistory: bool, today: Date)
    requires r.login != ""
    ensures var res := EmployeeStep(d, r, n, updateHistory, today);
            var before := Fetched(d, r, today);
            var d1 := d.(employees := d.employees[r.login := before]);
            !res.outcome.Failed? ==>
              Place(d1, before, r).Success?
              && res.dir.employees[r.login] == Place(d1, before, r).value.(pay := r.pay)
  {
  }

  /** Every row is reported exactly once: as created, as updated, or as an error line. */
  lemma {:induction false} EmployeesAccounted(d: Directory, rs: seq<EmployeeRow>, updateHistory: bool, today: Date)
    ensures var rep := EmployeesLoaded(d, rs, updateHistory, today).report;
            rep.created + rep.updated + |rep.errors| == |rs|
  {
    if rs != [] {
      EmployeesAccounted(d, rs[..|rs| - 1], updateHistory, today);
    }
  }

  /**
   * Afterwards the employees are the old ones plus one per non-empty login, the old
   * records other than the rows' logins are untouched, and the directory is unchanged.
   */
  lemma {:induction false} EmployeesKeys(d: Directory, rs: seq<EmployeeRow>, updateHistory: bool, today: Date)
    ensures var r := EmployeesLoaded(d, rs, updateHistory, today).dir;
            r.employees.Keys == d.employees.Keys + NonEmpty(Logins(rs))
            && (forall l :: l in d.employees && l !in Logins(rs) ==> r.employees[l] == d.employees[l])
            && r.departments == d.departments && r.divisions == d.divisions && r.groups == d.groups
  {
    if rs != [] {
      EmployeesKeys(d, rs[..|rs| - 1], updateHistory, today);
      LoginsStep(rs);
    }
  }

  /** The logins of all rows are those of all but the last row, and the last row's. */
  lemma LoginsStep(rs: seq<EmployeeRow>)
    requires rs != []
    ensures var init, last := rs[..|rs| - 1], rs[|rs| - 1].login;
            NonEmpty(Logins(rs)) == NonEmpty(Logins(init)) + (if last == "" then {} else {last})
            && forall l :: l !in Logins(rs) ==> l !in Logins(init) && l != last
  {
    assert Logins(rs) == Logins(rs[..|rs| - 1]) + [rs[|rs| - 1].login];
  }

  /**
   * The ledger is append-only. Every entry the batch appends belongs to one of the rows'
   * logins, is dated today, carries the import comment and records a real change; with
   * `update_salary_history` off nothing is appended.
   */
  lemma {:induction false} EmployeesHistory(d: Directory, rs: seq<EmployeeRow>, updateHistory: bool, today: Date)
    ensures var h := EmployeesLoaded(d, rs, updateHistory, today).dir.history;
            |d.history| <= |h| && h[..|d.history|] == d.history
            && (forall i :: |d.history| <= i < |h| ==>
                  h[i].before != h[i].after && h[i].comment == ImportComment && h[i].changeDate == today
                  && h[i].employee in NonEmpty(Logins(rs)))
            && (!updateHistory ==> h == d.history)
  {
    if rs != [] {
      var init := rs[..|rs| - 1];
      EmployeesHistory(d, init, updateHistory, today);
      LoginsStep(rs);
      var prev := EmployeesLoaded(d, init, updateHistory, today).dir;
      EmployeeStepHistory(d.history, NonEmpty(Logins(init)), prev, rs[|rs| - 1], |rs| + 1, updateHistory, today);
    }
  }

  /** One row keeps the ledger facts of `EmployeesHistory`, with its own login added. */
  lemma EmployeeStepHistory(old0: seq<HistoryEntry>, logins: set<string>, prev: Directory, r: EmployeeRow, n: nat,
                            updateHistory: bool, today: Date)
    requires |old0| <= |prev.history| && prev.history[..|old0|] == old0
    requires forall i :: |old0| <= i < |prev.history| ==>
               prev.history[i].before != prev.history[i].after && prev.history[i].comment == ImportComment
               && prev.history[i].changeDate == today && prev.history[i].employee in logins
    requires !updateHistory ==> prev.history == old0
    ensures var h := EmployeeStep(prev, r, n, updateHistory, today).dir.history;
            |old0| <= |h| && h[..|old0|] == old0
            && (forall i :: |old0| <= i < |h| ==>
                  h[i].before != h[i].after && h[i].comment == ImportComment && h[i].changeDate == today
                  && h[i].employee in logins + (if r.login == "" then {} else {r.login}))
            && (!updateHistory ==> h == old0)
  {
    var h := EmployeeStep(prev, r, n, updateHistory, today).dir.history;
    if h != prev.history {
      assert h[..|prev.history|] == prev.history;
    }
  }

  /** A row with an empty login is reported as `Row {idx + 2}: Missing login`. */
  lemma {:induction false} EmployeesMissingLogin(d: Directory, rs: seq<EmployeeRow>, updateHistory: bool, today: Date, i: nat)
    requires i < |rs| && rs[i].login == ""
    ensures RowMessage(i + 2, "Missing login") in EmployeesLoaded(d, rs, updateHistory, today).report.errors
  {
    var init := rs[..|rs| - 1];
    if i < |rs| - 1 {
      EmployeesMissingLogin(d, init, updateHistory, today, i);
      var step := EmployeeStep(EmployeesLoaded(d, init, updateHistory, today).dir, rs[|rs| - 1], |rs| + 1, updateHistory, today);
      var prev := EmployeesLoaded(d, init, updateHistory, today).report;
      assert step.outcome.Failed? ==> Tally(prev, step.outcome).errors == prev.errors + [step.outcome.message];
    }
  }

  /** Rows whose logins all exist already create no employee. */
  lemma {:induction false} EmployeesPresent(d: Directory, rs: seq<EmployeeRow>, updateHistory: bool, today: Date)
    requires NonEmpty(Logins(rs)) <= d.employees.Keys
    ensures EmployeesLoaded(d, rs, updateHistory, today).report.created == 0
  {
    if rs != [] {
      var init := rs[..|rs| - 1];
      assert Logins(rs) == Logins(init) + [rs[|rs| - 1].login];
      EmployeesPresent(d, init, updateHistory, today);
      EmployeesKeys(d, init, updateHistory, today);
    }
  }

  /** Loading the same employee rows a second time creates no employee. */
  lemma {:induction false} EmployeesRerun(d: Directory, rs: seq<EmployeeRow>, updateHistory: bool, today: Date)
    ensures var once := EmployeesLoaded(d, rs, updateHistory, today).dir;
            EmployeesLoaded(once, rs, updateHistory, today).report.created == 0
  {
    EmployeesKeys(d, rs, updateHistory, today);
    EmployeesPresent(EmployeesLoaded(d, rs, updateHistory, today).dir, rs, updateHistory, today);
  }

  /** Storing a record whose references exist, and ledger entries for stored logins,
      keeps every reference of the store intact. */
  lemma {:induction false} PutKeepsConsistent(d: Directory, e: Employee, entries: seq<HistoryEntry>)
    requires Consistent(d)
    requires EmployeeConsistent(d.(employees := d.employees[e.login := e]), e)
    requires forall i :: 0 <= i < |entries| ==> entries[i].employee in d.employees || entries[i].employee == e.login
    ensures Consistent(d.(employees := d.employees[e.login := e], history := d.history + entries))
  {
    var d' := d.(employees := d.employees[e.login := e], history := d.history + entries);
    forall l | l in d'.employees ensures EmployeeConsistent(d', d'.employees[l]) && d'.employees[l].login == l {
      if l != e.login {
        assert EmployeeConsistent(d, d.employees[l]);
      }
    }
  }

  /** One row keeps every reference of the store intact. */
  lemma {:induction false} EmployeeStepKeepsConsistent(d: Directory, r: EmployeeRow, n: nat, updateHistory: bool, today: Date)
    requires Consistent(d)
    ensures Consistent(EmployeeStep(d, r, n, updateHistory, today).dir)
  {
    if r.login != "" {
      var res := EmployeeStep(d, r, n, updateHistory, today);
      var before := Fetched(d, r, today);
      var d1 := d.(employees := d.employees[r.login := before]);
      if r.login in d.employees {
        assert EmployeeConsistent(d, before);
      }
      PutKeepsConsistent(d, before, []);
      assert d1 == d.(employees := d.employees[r.login := before], history := d.history + []);
      if !res.outcome.Failed? {
        EmployeeStepSaves(d, r, n, updateHistory, today);
        PlaceAssigns(d1, before, r);
        PlaceDivision(d1, before, r);
        PlaceGroup(d1, before, r);
        var e := res.dir.employees[r.login];
        assert EmployeeConsistent(d1.(employees := d1.employees[e.login := e]), e);
        var entries := res.dir.history[|d.history|..];
        assert res.dir.history == d1.history + entries;
        PutKeepsConsistent(d1, e, entries);
        assert res.dir == d1.(employees := d1.employees[e.login := e], history := d1.history + entries);
      }
    }
  }

  /** The employee loop keeps every reference of the store intact. */
  lemma {:induction false} EmployeesKeepConsistent(d: Directory, rs: seq<EmployeeRow>, updateHistory: bool, today: Date)
    requires Consistent(d)
    ensures Consistent(EmployeesLoaded(d, rs, updateHistory, today).dir)
  {
    if rs != [] {
      var init := rs[..|rs| - 1];
      EmployeesKeepConsistent(d, init, updateHistory, today);
      EmployeeStepKeepsConsistent(EmployeesLoaded(d, init, updateHistory, today).dir, rs[|rs| - 1], |rs| + 1, updateHistory, today);
    }
  }

  // ---------------------------------------------------------------------------
  /** The employee fold over one more row is one more loop step, on row number i + 2. */
  lemma {:induction false} EmployeesLoadedNext(d: Directory, rs: seq<EmployeeRow>, i: nat, updateHistory: bool, today: Date)
    requires i < |rs|
    ensures var prev := EmployeesLoaded(d, rs[..i], updateHistory, today);
            var step := EmployeeStep(prev.dir, rs[i], i + 2, updateHistory, today);
            EmployeesLoaded(d, rs[..i + 1], updateHistory, today) == EmployeesOutcome(step.dir, Tally(prev.report, step.outcome))
  {
    assert rs[..i + 1][..i] == rs[..i];
  }

  // The loaders, run in place on the store

  /** The database the loaders write to. */
  class Store {
    var departments: set<string>
    var divisions: set<DivisionKey>
    var groups: set<GroupKey>
    var employees: map<string, Employee>
    var history: seq<HistoryEntry>

    function State(): Directory
      reads this
    {
      Directory(departments, divisions, groups, employees, history)
    }

    constructor ()
      ensures State() == Directory({}, {}, {}, map[], [])
      ensures Consistent(State())
    {
      departments, divisions, groups, employees, history := {}, {}, {}, map[], [];
    }

    /** `load_departments_from_file`. */
    method LoadDepartments(rows: seq<Row>) returns (counts: Counts)
      modifies this
      ensures Loaded(State(), counts) == DepartmentsLoaded(old(State()), DepartmentNamesOf(rows))
      ensures Consistent(old(State())) ==> Consistent(State())
    {
      ghost var names := DepartmentNamesOf(rows);
      counts := Counts(0, 0);
      for i := 0 to |rows|
        invariant Loaded(State(), counts) == DepartmentsLoaded(old(State()), names[..i])
      {
        var name := DepartmentName(rows[i]);
        assert names[..i + 1][..i] == names[..i];
        assert names[..i + 1][i] == name;
        counts := LoadDepartmentRow(name, counts);
      }
      assert names[..|rows|] == names;
      if Consistent(old(State())) {
        DepartmentsKeepConsistent(old(State()), names);
      }
    }

    /** `load_divisions_from_file`. */
    method LoadDivisions(rows: seq<Row>) returns (counts: Counts)
      modifies this
      ensures Loaded(State(), counts) == DivisionsLoaded(old(State()), DivisionsOf(rows))
      ensures Consistent(old(State())) ==> Consistent(State())
    {
      ghost var keys := DivisionsOf(rows);
      counts := Counts(0, 0);
      for i := 0 to |rows|
        invariant Loaded(State(), counts) == DivisionsLoaded(old(State()), keys[..i])
      {
        var k := DivisionOfRow(rows[i]);
        assert keys[..i + 1][..i] == keys[..i];
        assert keys[..i + 1][i] == k;
        counts := LoadDivisionRow(k, counts);
      }
      assert keys[..|rows|] == keys;
      if Consistent(old(State())) {
        DivisionsKeepConsistent(old(State()), keys);
      }
    }

    /** One pass of the department loop: get-or-create the named department. */
    method LoadDepartmentRow(name: string, counts: Counts) returns (counts': Counts)
      modifies this`departments
      ensures Loaded(State(), counts') == DepartmentStep(Loaded(old(State()), counts), name)
    {
      counts' := counts;
      if name != "" {
        if name in departments {
          counts' := counts.(updated := counts.updated + 1);
        } else {
          departments := departments + {name};
          counts' := counts.(created := counts.created + 1);
        }
      }
    }

    /** One pass of the division loop: get-or-create the division under an existing department. */
    method LoadDivisionRow(k: DivisionKey, counts: Counts) returns (counts': Counts)
      modifies this`divisions
      ensures Loaded(State(), counts') == DivisionStep(Loaded(old(State()), counts), k)
    {
      counts' := counts;
      if k.department != "" && k.name != "" && k.department in departments {
        if k in divisions {
          counts' := counts.(updated := counts.updated + 1);
        } else {
          divisions := divisions + {k};
          counts' := counts.(created := counts.created + 1);
        }
      }
    }

    /** `load_groups_from_file`: an ambiguous division name stops the batch, keeping the
        groups created by the rows before it. */
    method LoadGroups(rows: seq<Row>) returns (result: Result<Counts>)
      modifies this
      ensures GroupsOutcome(State(), result) == GroupsLoaded(old(State()), GroupsOf(rows))
      ensures Consistent(old(State())) ==> Consistent(State())
    {
      ghost var refs := GroupsOf(rows);
      var counts := Counts(0, 0);
      for i := 0 to |rows|
        invariant GroupsOutcome(State(), Success(counts)) == GroupsLoaded(old(State()), refs[..i])
      {
        GroupsLoadedNext(old(State()), refs, i);
        var step := LoadGroupRow(GroupOfRow(rows[i]), counts);
        if step.Failure? {
          result := step;
          GroupsAbortAt(old(State()), refs, i);
          if Consistent(old(State())) {
            GroupsKeepConsistent(old(State()), refs);
          }
          return;
        }
        counts := step.value;
      }
      assert refs[..|rows|] == refs;
      result := Success(counts);
      if Consistent(old(State())) {
        GroupsKeepConsistent(old(State()), refs);
      }
    }

    /** One pass of the group loop: get-or-create the row's group, or fail on an ambiguous division. */
    method LoadGroupRow(g: GroupRef, counts: Counts) returns (result: Result<Counts>)
      modifies this`groups
      ensures GroupsOutcome(State(), result) == GroupStep(GroupsOutcome(old(State()), Success(counts)), g)
    {
      result := Success(counts);
      if g.division != "" && g.name != "" {
        var found := LookupDivision(divisions, g.division);
        if found.Ambiguous? {
          return Failure(MultipleReturned("Division", found.count));
        }
        if found.Found? {
          var k := GroupKey(found.value, g.name);
          if k in groups {
            result := Success(counts.(updated := counts.updated + 1));
          } else {
            groups := groups + {k};
            result := Success(counts.(created := counts.created + 1));
          }
        }
      }
    }

    /** `load_employees_from_file`: each row runs on its own, and its failure is reported
        as an error line while later rows still run. */
    method LoadEmployees(rows: seq<Row>, updateHistory: bool, today: Date) returns (report: Report)
      modifies this
      ensures EmployeesOutcome(State(), report) == EmployeesLoaded(old(State()), EmployeeRowsOf(rows), updateHistory, today)
      ensures Consistent(old(State())) ==> Consistent(State())
    {
      ghost var d0 := State();
      var rs := EmployeeRowsOf(rows);
      report := Report(0, 0, []);
      for i := 0 to |rs|
        invariant EmployeesOutcome(State(), report) == EmployeesLoaded(d0, rs[..i], updateHistory, today)
      {
        var outcome := LoadEmployeeRow(rs[i], i + 2, updateHistory, today);
        report := Tally(report, outcome);
        EmployeesLoadedNext(d0, rs, i, updateHistory, today);
      }
      assert rs[..|rs|] == rs;
      if Consistent(d0) {
        EmployeesKeepConsistent(d0, rs, updateHistory, today);
      }
    }

    /** The body of the employee loop for one row. */
    method LoadEmployeeRow(r: EmployeeRow, rowNumber: nat, updateHistory: bool, today: Date) returns (outcome: RowOutcome)
      modifies this
      ensures RowApplied(State(), outcome) == EmployeeStep(old(State()), r, rowNumber, updateHistory, today)
    {
      ghost var d := State();
      if r.login == "" {
        return Failed(RowMessage(rowNumber, "Missing login"));
      }
      var created := r.login !in employees;
      if created {
        employees := employees[r.login := NewEmployee(r, today)];
      }
      var e := employees[r.login];
      ghost var d1 := State();
      assert e == Fetched(d, r, today) && d1 == d.(employees := d.employees[r.login := e]);
      var placed := PlaceEmployee(e, r);
      if placed.Failure? {
        outcome := Failed(RowMessage(rowNumber, placed.error));
        assert EmployeeStep(d, r, rowNumber, updateHistory, today) == RowApplied(d1, outcome);
        return;
      }
      e := placed.value.(pay := r.pay);
      employees := employees[r.login := e];
      ghost var entries: seq<HistoryEntry> := [];
      if updateHistory && placed.value.pay != r.pay {
        history := history + [HistoryEntry(r.login, today, placed.value.pay, r.pay, ImportComment)];
        entries := [HistoryEntry(r.login, today, placed.value.pay, r.pay, ImportComment)];
      }
      outcome := if created then Created else Updated;
      assert State() == d1.(employees := d1.employees[r.login := e], history := d1.history + entries);
      assert EmployeeStep(d, r, rowNumber, updateHistory, today) == RowApplied(State(), outcome);
    }

    /** The department, division, group and manager lookups of one row, applied to `e`;
        the pay is left as it was. */
    method PlaceEmployee(e: Employee, r: EmployeeRow) returns (res: Result<Employee>)
      ensures res == Place(State(), e, r)
      ensures res.Success? ==> res.value.pay == e.pay && res.value.login == e.login
    {
      var placed := e;
      if r.department != "" && r.department in departments {
        placed := placed.(department := Some(r.department));
      }
      var division := if r.division == "" then NotFound else LookupDivision(divisions, r.division);
      if division.Ambiguous? {
        return Failure(MultipleReturned("Division", division.count));
      }
      if division.Found? {
        placed := placed.(division := Some(division.value));
      }
      var group := if r.group == "" then NotFound else LookupGroup(groups, r.group);
      if group.Ambiguous? {
        return Failure(MultipleReturned("Group", group.count));
      }
      if group.Found? {
        placed := placed.(group := Some(group.value));
      }
      if r.functionalManager != "" && r.functionalManager in employees {
        placed := placed.(functionalManager := Some(r.functionalManager));
      }
      if r.lineManager != "" && r.lineManager in employees {
        placed := placed.(lineManager := Some(r.lineManager));
      }
      return Success(placed);
    }
  }
}
