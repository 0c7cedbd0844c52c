/** The filter/reduce pieces the dashboard, reports, departments and
    experience-level pages compute over a snapshot of the collection, and the
    partition and bound facts about them. */
module Aggregates {
  import opened Seqs
  import opened Rounding
  import opened EmployeeTypes
  import opened EmployeeStore

  predicate IsActive(e: Employee) { e.status == Active }
  predicate IsInactive(e: Employee) { e.status == Inactive }
  function SalaryOf(e: Employee): nat { e.salary }
  function YearsOf(e: Employee): nat { e.yearsOfExperience }

  /** `employees.filter(emp => emp.status === 'active').length`. */
  function ActiveCount(es: seq<Employee>): (n: nat)
    ensures n <= |es|
  {
    |Filter(IsActive, es)|
  }

  /** Every record is active or inactive, never both, so the two counts add up to the total. */
  lemma StatusPartition(es: seq<Employee>)
    ensures ActiveCount(es) + |Filter(IsInactive, es)| == |es|
  {
    FilterComplement(IsActive, IsInactive, es);
  }

  /** `employees.reduce((sum, emp) => sum + emp.salary, 0)`. */
  function SalaryTotal(es: seq<Employee>): nat { Sum(SalaryOf, es) }

  /** `employees.reduce((sum, emp) => sum + emp.yearsOfExperience, 0)`. */
  function YearsTotal(es: seq<Employee>): nat { Sum(YearsOf, es) }

  /** The number of records at one level. */
  function LevelCount(es: seq<Employee>, level: Level): nat {
    |OfLevel(es, LevelName(level))|
  }

  /** The four levels partition any collection: their counts add up to its length. */
  lemma {:induction false} LevelsPartition(es: seq<Employee>)
    ensures LevelCount(es, Junior) + LevelCount(es, Mid) + LevelCount(es, Senior) + LevelCount(es, Lead) == |es|
  {
    if es != [] {
      LevelsPartition(es[1..]);
    }
  }

  /** The mean of the values of `f` over a non-empty group, rounded, lies
      between any lower and upper bound of those values (so between the smallest
      and the largest); over an empty group it is 0. */
  lemma MeanWithin(f: Employee -> nat, es: seq<Employee>, lo: nat, hi: nat)
    requires forall e :: e in es ==> lo <= f(e) <= hi
    ensures es == [] ==> RoundedAverage(Sum(f, es), |es|) == 0
    ensures es != [] ==> lo <= RoundedAverage(Sum(f, es), |es|) <= hi
  {
    if es != [] {
      SumBounds(f, es, lo, hi);
      AverageWithinBounds(Sum(f, es), |es|, lo, hi);
    }
  }

  /** The catalog's department names, in catalog order. */
  function Names(depts: seq<Department>): (r: seq<string>)
    ensures |r| == |depts| && forall i :: 0 <= i < |depts| ==> r[i] == depts[i].name
  {
    seq(|depts|, i requires 0 <= i < |depts| => depts[i].name)
  }

  /** The catalog has no two departments of the same name. */
  lemma SampleNamesDistinct()
    ensures NoDup(Names(SampleDepartments))
  {
  }

  /** The predicate "the department string is one of `names`". */
  function InAny(names: seq<string>): Employee -> bool {
    (e: Employee) => e.department in names
  }

  /** The per-department counts over `names`, added up. */
  function CountsOver(es: seq<Employee>, names: seq<string>): nat {
    if names == [] then 0 else |InDepartment(es, names[0])| + CountsOver(es, names[1..])
  }

  /** Over distinct names, the per-department counts add up to the number of
      records whose department is one of them. */
  lemma {:induction false} CountsOverCover(es: seq<Employee>, names: seq<string>)
    requires NoDup(names)
    ensures CountsOver(es, names) == |Filter(InAny(names), es)|
  {
    if names == [] {
      assert forall e :: !InAny(names)(e);
      FilterNone(InAny(names), es);
    } else {
      var rest := names[1..];
      assert NoDup(rest) by {
        forall i, j | 0 <= i < j < |rest| ensures rest[i] != rest[j] {
          assert rest[i] == names[i + 1] && rest[j] == names[j + 1];
        }
      }
      CountsOverCover(es, rest);
      assert names[0] !in rest by {
        forall k | 0 <= k < |rest| ensures rest[k] != names[0] {
          assert rest[k] == names[k + 1];
        }
      }
      assert forall x :: InAny(names)(x) == (InDept(names[0])(x) || InAny(rest)(x)) by {
        assert names == [names[0]] + rest;
      }
      FilterDisjointUnion(InDept(names[0]), InAny(rest), InAny(names), es);
    }
  }

  /** Over distinct names the per-department counts add up to at most the total,
      and to strictly less when some record's department is not among the names:
      that record is counted nowhere. */
  lemma CountsOverBound(es: seq<Employee>, names: seq<string>)
    requires NoDup(names)
    ensures CountsOver(es, names) <= |es|
    ensures (exists e :: e in es && e.department !in names) ==> CountsOver(es, names) < |es|
  {
    CountsOverCover(es, names);
    if e :| e in es && e.department !in names {
      FilterDrops(InAny(names), es, e);
    }
  }
}
