/** The dashboard: headline statistics, level counts, per-department counts over
    the catalog and the first rows of the collection. */
module Dashboard {
  import opened Seqs
  import opened Rounding
  import opened EmployeeTypes
  import opened EmployeeStore
  import opened Aggregates

  datatype Stats = Stats(totalEmployees: nat, activeEmployees: nat, departments: nat, averageSalary: nat)

  /** `stats`. The average is `Math.round(total / n || 0)`: the `|| 0` turns the
      NaN of an empty collection into 0. */
  function ComputeStats(es: seq<Employee>, depts: seq<Department>): (r: Stats)
    ensures r.totalEmployees == |es| && r.activeEmployees <= r.totalEmployees
    ensures r.departments == |depts|
    ensures es == [] ==> r.averageSalary == 0
  {
    Stats(|es|, ActiveCount(es), |depts|, RoundedAverage(SalaryTotal(es), |es|))
  }

  /** The average salary lies between the smallest and largest salary. */
  lemma AverageSalaryWithin(es: seq<Employee>, depts: seq<Department>, lo: nat, hi: nat)
    requires es != [] && forall e :: e in es ==> lo <= e.salary <= hi
    ensures lo <= ComputeStats(es, depts).averageSalary <= hi
  {
    MeanWithin(SalaryOf, es, lo, hi);
  }

  datatype LevelCounts = LevelCounts(junior: nat, mid: nat, senior: nat, lead: nat)

  /** `experienceLevels`: the count per level; they add up to the total. */
  function ExperienceLevels(es: seq<Employee>): (r: LevelCounts)
    ensures r.junior + r.mid + r.senior + r.lead == |es|
  {
    LevelsPartition(es);
    LevelCounts(LevelCount(es, Junior), LevelCount(es, Mid), LevelCount(es, Senior), LevelCount(es, Lead))
  }

  datatype DepartmentCount = DepartmentCount(name: string, count: nat)

  /** `departmentStats`: one entry per catalog department, in catalog order,
      counting the records whose department string equals its name. */
  function DepartmentStats(es: seq<Employee>, depts: seq<Department>): (r: seq<DepartmentCount>)
    ensures |r| == |depts|
    ensures forall i :: 0 <= i < |depts| ==>
              r[i].name == depts[i].name && r[i].count == |InDepartment(es, depts[i].name)|
  {
    seq(|depts|, i requires 0 <= i < |depts| => DepartmentCount(depts[i].name, |InDepartment(es, depts[i].name)|))
  }

  function CountTotal(rows: seq<DepartmentCount>): nat {
    if rows == [] then 0 else rows[0].count + CountTotal(rows[1..])
  }

  lemma {:induction false} CountTotalIsCountsOver(es: seq<Employee>, rows: seq<DepartmentCount>, names: seq<string>)
    requires |rows| == |names|
    requires forall i :: 0 <= i < |rows| ==> rows[i].count == |InDepartment(es, names[i])|
    ensures CountTotal(rows) == CountsOver(es, names)
  {
    if rows != [] {
      CountTotalIsCountsOver(es, rows[1..], names[1..]);
    }
  }

  /** With distinct department names (the catalog's are), the department counts
      add up to at most the total, and to strictly less when some record names a
      department outside the catalog: such a record shows up in no entry. */
  lemma DepartmentStatsBound(es: seq<Employee>, depts: seq<Department>)
    requires NoDup(Names(depts))
    ensures CountTotal(DepartmentStats(es, depts)) <= |es|
    ensures (exists e :: e in es && e.department !in Names(depts)) ==> CountTotal(DepartmentStats(es, depts)) < |es|
  {
    CountTotalIsCountsOver(es, DepartmentStats(es, depts), Names(depts));
    CountsOverBound(es, Names(depts));
  }

  /** The same bound for the store's fixed catalog, which needs no assumption. */
  lemma CatalogStatsBound(es: seq<Employee>)
    ensures CountTotal(DepartmentStats(es, SampleDepartments)) <= |es|
    ensures (exists e :: e in es && e.department !in Names(SampleDepartments))
            ==> CountTotal(DepartmentStats(es, SampleDepartments)) < |es|
  {
    SampleNamesDistinct();
    DepartmentStatsBound(es, SampleDepartments);
  }

  /** `employees.slice(0, 5)`: the first min(5, n) records in collection order. */
  function RecentEmployees(es: seq<Employee>): (r: seq<Employee>)
    ensures |r| == (if |es| < 5 then |es| else 5)
    ensures forall i :: 0 <= i < |r| ==> r[i] == es[i]
  {
    Prefix(es, 5)
  }
}
