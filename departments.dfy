/** The departments page: per-department statistics on one card per catalog
    department, and the active share. */
module Departments {
  import opened Options
  import opened Seqs
  import opened Rounding
  import opened EmployeeTypes
  import opened EmployeeStore
  import opened Aggregates

  datatype DeptStats = DeptStats(totalEmployees: nat, activeEmployees: nat, avgSalary: nat, avgExperience: nat)

  /** `getDepartmentStats`: over the records whose department equals the name
      exactly; the averages are 0 for a department without employees. */
  function DepartmentStatsFor(es: seq<Employee>, name: string): (r: DeptStats)
    ensures r.totalEmployees == |InDepartment(es, name)|
    ensures r.activeEmployees <= r.totalEmployees
    ensures r.totalEmployees == 0 ==> r.avgSalary == 0 && r.avgExperience == 0
  {
    var members := InDepartment(es, name);
    DeptStats(|members|, ActiveCount(members),
              RoundedAverage(SalaryTotal(members), |members|), RoundedAverage(YearsTotal(members), |members|))
  }

  /** For a non-empty department, each average lies between the smallest and the
      largest value it averages. */
  lemma AveragesWithin(es: seq<Employee>, name: string, sLo: nat, sHi: nat, yLo: nat, yHi: nat)
    requires InDepartment(es, name) != []
    requires forall e :: e in InDepartment(es, name) ==> sLo <= e.salary <= sHi && yLo <= e.yearsOfExperience <= yHi
    ensures sLo <= DepartmentStatsFor(es, name).avgSalary <= sHi
    ensures yLo <= DepartmentStatsFor(es, name).avgExperience <= yHi
  {
    MeanWithin(SalaryOf, InDepartment(es, name), sLo, sHi);
    MeanWithin(YearsOf, InDepartment(es, name), yLo, yHi);
  }

  /** The "Active Employees" percentage: shown only for a department with
      employees, and then in [0, 100] whenever active is at most total. */
  function ActivePercentage(s: DeptStats): (r: Option<nat>)
    ensures r.Some? <==> s.totalEmployees > 0
    ensures r.Some? && s.activeEmployees <= s.totalEmployees ==> r.value <= 100
  {
    if s.totalEmployees > 0 then
      var p := Percentage(s.activeEmployees, s.totalEmployees);
      assert s.activeEmployees <= s.totalEmployees ==> p <= 100 by {
        if s.activeEmployees <= s.totalEmployees {
          PercentageAtMost100(s.activeEmployees, s.totalEmployees);
        }
      }
      Some(p)
    else None
  }

  /** The percentage of a card computed by `getDepartmentStats` is always in range. */
  lemma CardPercentageInRange(es: seq<Employee>, name: string)
    ensures var p := ActivePercentage(DepartmentStatsFor(es, name));
            p.Some? ==> p.value <= 100
  {
  }

  /** The cards: one per catalog department, in catalog order. */
  function Cards(es: seq<Employee>, depts: seq<Department>): (r: seq<DeptStats>)
    ensures |r| == |depts|
    ensures forall i :: 0 <= i < |depts| ==> r[i] == DepartmentStatsFor(es, depts[i].name)
  {
    seq(|depts|, i requires 0 <= i < |depts| => DepartmentStatsFor(es, depts[i].name))
  }

  /** The "No departments found" message appears exactly when there are no cards. */
  function EmptyStateShown(es: seq<Employee>, depts: seq<Department>): (shown: bool)
    ensures shown <==> Cards(es, depts) == []
  {
    |depts| == 0
  }
}
