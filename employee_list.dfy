/** The employee list page: search and filter, the department options and the
    salary total of what is shown. */
module EmployeeList {
  import opened Seqs
  import opened Text
  import opened EmployeeTypes
  import opened Aggregates

  /** The search: the lower-cased term occurs in the lower-cased name, position or email. */
  predicate MatchesSearch(e: Employee, term: string) {
    var t := Lower(term);
    IsSubstring(t, Lower(e.name)) || IsSubstring(t, Lower(e.position)) || IsSubstring(t, Lower(e.email))
  }

  /** The whole predicate of `filteredEmployees`; an empty filter string means "any". */
  predicate Shown(e: Employee, term: string, department: string, level: string) {
    && MatchesSearch(e, term)
    && (department == "" || e.department == department)
    && (level == "" || LevelName(e.experienceLevel) == level)
  }

  function ShownBy(term: string, department: string, level: string): Employee -> bool {
    (e: Employee) => Shown(e, term, department, level)
  }

  function HiddenBy(term: string, department: string, level: string): Employee -> bool {
    (e: Employee) => !Shown(e, term, department, level)
  }

  /** `filteredEmployees`: the shown records in collection order; each satisfies
      the department and level filters that are set. */
  function FilteredEmployees(es: seq<Employee>, term: string, department: string, level: string): (r: seq<Employee>)
    ensures |r| <= |es|
    ensures IsSubsequence(r, es)
    ensures forall e :: e in r <==> e in es && Shown(e, term, department, level)
    ensures forall e :: e in r && department != "" ==> e.department == department
    ensures forall e :: e in r && level != "" ==> LevelName(e.experienceLevel) == level
  {
    Filter(ShownBy(term, department, level), es)
  }

  /** With no search term and no filters every employee is shown, in order. */
  lemma NoCriteriaShowsAll(es: seq<Employee>)
    ensures FilteredEmployees(es, "", "", "") == es
  {
    forall e | e in es ensures ShownBy("", "", "")(e) {
      assert Lower("") == "";
      EmptyIsSubstring(Lower(e.name));
    }
    FilterAll(ShownBy("", "", ""), es);
  }

  /** The search ignores the case of the term, and it matches exactly when the
      lower-cased term occurs at some position of the lower-cased name, position or email. */
  lemma SearchMeaning(e: Employee, term: string)
    ensures MatchesSearch(e, Lower(term)) == MatchesSearch(e, term)
    ensures MatchesSearch(e, term) <==>
              (exists i :: OccursAt(Lower(term), Lower(e.name), i)) ||
              (exists i :: OccursAt(Lower(term), Lower(e.position), i)) ||
              (exists i :: OccursAt(Lower(term), Lower(e.email), i))
  {
    LowerIdempotent(term);
    SubstringAt(Lower(term), Lower(e.name));
    SubstringAt(Lower(term), Lower(e.position));
    SubstringAt(Lower(term), Lower(e.email));
  }

  function DepartmentOf(e: Employee): string { e.department }

  /** The department strings of the collection, one per record. */
  function DepartmentColumn(es: seq<Employee>): seq<string> { Map(DepartmentOf, es) }

  /** `[...new Set(employees.map(emp => emp.department))]`: each department string
      occurring in the collection exactly once, in order of first occurrence. */
  function DepartmentOptions(es: seq<Employee>): (r: seq<string>)
    ensures NoDup(r)
    ensures forall d :: d in r <==> exists e :: e in es && e.department == d
    ensures forall d :: d in r <==> d in DepartmentColumn(es)
    ensures forall i, j :: 0 <= i < j < |r| ==>
              FirstIndex(DepartmentColumn(es), r[i]) < FirstIndex(DepartmentColumn(es), r[j])
  {
    var col := DepartmentColumn(es);
    assert forall d :: d in col <==> exists e :: e in es && e.department == d by {
      forall d | d in col ensures exists e :: e in es && e.department == d {
        var k :| 0 <= k < |col| && col[k] == d;
        assert es[k] in es;
      }
      forall e | e in es ensures e.department in col {
        var k :| 0 <= k < |es| && es[k] == e;
        assert col[k] == e.department;
      }
    }
    Dedup(col)
  }

  /** "Showing n of m": the shown count is at most the total; the salary total of
      the shown records plus that of the hidden ones is the salary total of all. */
  lemma ShownTotals(es: seq<Employee>, term: string, department: string, level: string)
    ensures |FilteredEmployees(es, term, department, level)| <= |es|
    ensures SalaryTotal(FilteredEmployees(es, term, department, level))
            + SalaryTotal(Filter(HiddenBy(term, department, level), es)) == SalaryTotal(es)
    ensures SalaryTotal(FilteredEmployees(es, term, department, level)) <= SalaryTotal(es)
  {
    SumFilterSplit(SalaryOf, ShownBy(term, department, level), HiddenBy(term, department, level), es);
  }
}
