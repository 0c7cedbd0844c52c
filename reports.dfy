/** The reports page: key metrics, per-department rows, the level distribution,
    salary by level, the employment rate and the skill diversity. */
module Reports {
  import opened Seqs
  import opened Rounding
  import opened EmployeeTypes
  import opened EmployeeStore
  import opened Aggregates

  datatype KeyMetrics = KeyMetrics(totalEmployees: nat, activeEmployees: nat, avgSalary: nat, avgExperience: nat)

  /** The headline numbers; both averages are 0 for an empty collection. */
  function Metrics(es: seq<Employee>): (r: KeyMetrics)
    ensures r.totalEmployees == |es| && r.activeEmployees <= r.totalEmployees
    ensures es == [] ==> r.avgSalary == 0 && r.avgExperience == 0
  {
    KeyMetrics(|es|, ActiveCount(es), RoundedAverage(SalaryTotal(es), |es|), RoundedAverage(YearsTotal(es), |es|))
  }

  datatype DepartmentRow = DepartmentRow(name: string, employees: nat, avgSalary: nat)

  /** One row of `departmentData`; the average divides by `Math.max(count, 1)`. */
  function DepartmentRowFor(es: seq<Employee>, name: string): DepartmentRow {
    var members := InDepartment(es, name);
    DepartmentRow(name, |members|, RoundedAverageMaxOne(SalaryTotal(members), |members|))
  }

  /** `departmentData`: one row per catalog department, in catalog order. A
      department without employees averages 0, and in general the `max(count, 1)`
      average equals the guarded average the departments page shows. */
  function DepartmentData(es: seq<Employee>, depts: seq<Department>): (r: seq<DepartmentRow>)
    ensures |r| == |depts|
    ensures forall i :: 0 <= i < |depts| ==>
              && r[i].name == depts[i].name
              && r[i].employees == |InDepartment(es, depts[i].name)|
              && r[i].avgSalary == RoundedAverage(SalaryTotal(InDepartment(es, depts[i].name)), r[i].employees)
              && (r[i].employees == 0 ==> r[i].avgSalary == 0)
  {
    var r := seq(|depts|, i requires 0 <= i < |depts| => DepartmentRowFor(es, depts[i].name));
    assert forall i :: 0 <= i < |depts| ==>
             r[i].avgSalary == RoundedAverage(SalaryTotal(InDepartment(es, depts[i].name)), r[i].employees) by {
      forall i | 0 <= i < |depts| {
        MaxOneAgrees(SalaryTotal(InDepartment(es, depts[i].name)), |InDepartment(es, depts[i].name)|);
      }
    }
    r
  }

  /** `experienceData`: the junior, mid, senior and lead counts; they add up to the total. */
  function ExperienceData(es: seq<Employee>): (r: seq<nat>)
    ensures |r| == 4 && r[0] + r[1] + r[2] + r[3] == |es|
  {
    LevelsPartition(es);
    [LevelCount(es, Junior), LevelCount(es, Mid), LevelCount(es, Senior), LevelCount(es, Lead)]
  }

  const ReportLevels: seq<Level> := [Junior, Mid, Senior, Lead]

  /** `avgSalary` of one `salaryByExperience` entry: divides by `Math.max(count, 1)`. */
  function LevelAverageSalary(es: seq<Employee>, level: Level): nat {
    var members := OfLevel(es, LevelName(level));
    RoundedAverageMaxOne(SalaryTotal(members), |members|)
  }

  /** `salaryByExperience`: per level, the rounded mean salary, 0 for an empty level. */
  function SalaryByExperience(es: seq<Employee>): (r: seq<nat>)
    ensures |r| == 4
    ensures forall i :: 0 <= i < 4 ==>
              r[i] == RoundedAverage(SalaryTotal(OfLevel(es, LevelName(ReportLevels[i]))), LevelCount(es, ReportLevels[i]))
    ensures forall i :: 0 <= i < 4 && LevelCount(es, ReportLevels[i]) == 0 ==> r[i] == 0
  {
    var r := seq(4, i requires 0 <= i < 4 => LevelAverageSalary(es, ReportLevels[i]));
    assert forall i :: 0 <= i < 4 ==>
             r[i] == RoundedAverage(SalaryTotal(OfLevel(es, LevelName(ReportLevels[i]))), LevelCount(es, ReportLevels[i])) by {
      forall i | 0 <= i < 4 {
        MaxOneAgrees(SalaryTotal(OfLevel(es, LevelName(ReportLevels[i]))), |OfLevel(es, LevelName(ReportLevels[i]))|);
      }
    }
    r
  }

  /** The employment rate: 0 with no employees, otherwise the rounded share of
      active employees, at most 100. */
  function EmploymentRate(es: seq<Employee>): (r: nat)
    ensures es == [] ==> r == 0
    ensures r <= 100
  {
    PercentageAtMost100(ActiveCount(es), |es|);
    Percentage(ActiveCount(es), |es|)
  }

  function SkillCount(e: Employee): nat { |e.skills| }

  /** `employees.flatMap(emp => emp.skills)`: every employee's skills in
      collection order, so one entry per listed skill. */
  function AllSkills(es: seq<Employee>): (r: seq<string>)
    ensures |r| == Sum(SkillCount, es)
    ensures es != [] ==> r[..|es[0].skills|] == es[0].skills
  {
    if es == [] then [] else es[0].skills + AllSkills(es[1..])
  }

  /** A skill occurs in the flattened list exactly when some employee lists it. */
  lemma {:induction false} AllSkillsMembers(es: seq<Employee>)
    ensures forall s :: s in AllSkills(es) <==> exists e :: e in es && s in e.skills
  {
    if es != [] {
      AllSkillsMembers(es[1..]);
      assert forall e :: e in es <==> e == es[0] || e in es[1..];
    }
  }

  /** Skill diversity, `[...new Set(employees.flatMap(emp => emp.skills))].length`:
      the number of distinct skills across all employees, at most the number of
      skill entries, 0 for an empty collection. */
  function SkillDiversity(es: seq<Employee>): (r: nat)
    ensures r == |set s | s in AllSkills(es)|
    ensures r <= |AllSkills(es)|
    ensures es == [] ==> r == 0
  {
    var d := Dedup(AllSkills(es));
    NoDupCardinality(d);
    assert (set s | s in d) == (set s | s in AllSkills(es));
    |d|
  }
}
