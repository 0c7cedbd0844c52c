/** The workforce store: an ordered collection of employees mirrored to the
    durable `employees` record on every change, a fixed department catalog, and
    the two order-preserving queries. */
module EmployeeStore {
  import opened Options
  import opened Seqs
  import opened EmployeeTypes

  /** The department catalog; no operation changes it. */
  const SampleDepartments: seq<Department> := [
    Department("1", "Engineering", "Software development and technical operations"),
    Department("2", "Marketing", "Brand promotion and customer acquisition"),
    Department("3", "Sales", "Revenue generation and client relations"),
    Department("4", "HR", "Human resources and talent management"),
    Department("5", "Finance", "Financial planning and accounting")
  ]

  /** The collection written when nothing is saved yet. */
  const SampleEmployees: seq<Employee> := [
    Employee("1", "John Doe", "john.doe@company.com", "Senior Software Engineer", "Engineering",
             Senior, 8, 95000, "2020-01-15", ["React", "Node.js", "TypeScript", "AWS"], Active, None),
    Employee("2", "Jane Smith", "jane.smith@company.com", "Marketing Manager", "Marketing",
             Mid, 5, 70000, "2021-03-10", ["Digital Marketing", "SEO", "Content Strategy"], Active, None),
    Employee("3", "Mike Johnson", "mike.johnson@company.com", "Junior Developer", "Engineering",
             Junior, 2, 55000, "2023-06-01", ["JavaScript", "React", "CSS"], Active, None)
  ]

  /** The set of ids in a collection. */
  function Ids(es: seq<Employee>): set<string> {
    set e | e in es :: e.id
  }

  /** No two records share an id. The store assumes this but does not enforce it. */
  predicate UniqueIds(es: seq<Employee>) {
    forall i, j :: 0 <= i < j < |es| ==> es[i].id != es[j].id
  }

  /** `{ ...employee, id }`: the draft with the new id. */
  function WithId(d: Draft, id: string): Employee {
    Employee(id, d.name, d.email, d.position, d.department, d.experienceLevel,
             d.yearsOfExperience, d.salary, d.joinDate, d.skills, d.status, d.managerId)
  }

  /** `Omit<Employee, 'id'>` of a record. */
  function ToDraft(e: Employee): Draft {
    Draft(e.name, e.email, e.position, e.department, e.experienceLevel,
          e.yearsOfExperience, e.salary, e.joinDate, e.skills, e.status, e.managerId)
  }

  /** Giving a draft an id keeps every other field: dropping the id gives the draft back,
      and a record is its own draft with its own id. */
  lemma WithIdRoundTrip(d: Draft, id: string, e: Employee)
    ensures ToDraft(WithId(d, id)) == d && WithId(d, id).id == id
    ensures WithId(ToDraft(e), e.id) == e
  {
  }

  /** `{ ...emp, ...employeeUpdate }`: fields named by the partial replace the record's. */
  function Merge(e: Employee, p: Patch): (r: Employee)
    ensures forall k: Field ::
              FieldOf(r, k) == if PatchFieldOf(p, k).Some? then PatchFieldOf(p, k) else FieldOf(e, k)
  {
    Employee(p.id.GetOr(e.id), p.name.GetOr(e.name), p.email.GetOr(e.email),
             p.position.GetOr(e.position), p.department.GetOr(e.department),
             p.experienceLevel.GetOr(e.experienceLevel), p.yearsOfExperience.GetOr(e.yearsOfExperience),
             p.salary.GetOr(e.salary), p.joinDate.GetOr(e.joinDate), p.skills.GetOr(e.skills),
             p.status.GetOr(e.status), if p.managerId.Some? then p.managerId else e.managerId)
  }

  /** `Merge` is object spread: as objects, the merged record is the old record
      overridden by the keys the partial names. So named fields take the
      partial's values, and every other field, the id included, is kept. */
  lemma MergeIsSpread(e: Employee, p: Patch)
    ensures AsObject(Merge(e, p)) == AsObject(e) + PatchObject(p)
    ensures forall k :: k in PatchObject(p) ==> AsObject(Merge(e, p))[k] == PatchObject(p)[k]
    ensures forall k :: k in AsObject(e) && k !in PatchObject(p) ==> AsObject(Merge(e, p))[k] == AsObject(e)[k]
  {
    var m := Merge(e, p);
    assert AsObject(m) == AsObject(e) + PatchObject(p);
  }

  /** Merging the empty partial changes nothing; merging the same partial twice is merging it once. */
  lemma MergeLaws(e: Employee, p: Patch)
    ensures Merge(e, EmptyPatch) == e
    ensures Merge(Merge(e, p), p) == Merge(e, p)
    ensures p.id.None? ==> Merge(e, p).id == e.id
  {
  }

  /** `[...employees, newEmployee]`. */
  function Appended(es: seq<Employee>, d: Draft, id: string): (r: seq<Employee>)
    ensures |r| == |es| + 1 && r[..|es|] == es && r[|es|] == WithId(d, id)
  {
    es + [WithId(d, id)]
  }

  /** `employees.map(emp => emp.id === id ? { ...emp, ...employeeUpdate } : emp)`. */
  function Updated(es: seq<Employee>, id: string, p: Patch): (r: seq<Employee>)
    ensures |r| == |es|
    ensures forall i :: 0 <= i < |es| ==> r[i] == if es[i].id == id then Merge(es[i], p) else es[i]
  {
    seq(|es|, i requires 0 <= i < |es| => if es[i].id == id then Merge(es[i], p) else es[i])
  }

  /** The predicate `emp => emp.id !== id`. */
  function OtherId(id: string): Employee -> bool {
    (e: Employee) => e.id != id
  }

  /** `employees.filter(emp => emp.id !== id)`: every record with the id is gone,
      every other one stays, in the original order. */
  function Deleted(es: seq<Employee>, id: string): (r: seq<Employee>)
    ensures forall e :: e in r ==> e.id != id
    ensures forall e: Employee :: e.id != id ==> multiset(r)[e] == multiset(es)[e]
    ensures IsSubsequence(r, es)
  {
    Filter(OtherId(id), es)
  }

  /** The predicate `emp => emp.experienceLevel === level`. */
  function AtLevel(level: string): Employee -> bool {
    (e: Employee) => LevelName(e.experienceLevel) == level
  }

  /** `employees.filter(emp => emp.experienceLevel === level)`: exactly the records at
      that level, each as often as in the collection, in collection order. */
  function OfLevel(es: seq<Employee>, level: string): (r: seq<Employee>)
    ensures forall e :: e in r <==> e in es && LevelName(e.experienceLevel) == level
    ensures forall e: Employee :: LevelName(e.experienceLevel) == level ==> multiset(r)[e] == multiset(es)[e]
    ensures IsSubsequence(r, es)
  {
    Filter(AtLevel(level), es)
  }

  /** The predicate `emp => emp.department === department`. */
  function InDept(department: string): Employee -> bool {
    (e: Employee) => e.department == department
  }

  /** `employees.filter(emp => emp.department === department)`: exactly the records
      whose department string equals the argument, in collection order. */
  function InDepartment(es: seq<Employee>, department: string): (r: seq<Employee>)
    ensures forall e :: e in r <==> e in es && e.department == department
    ensures forall e: Employee :: e.department == department ==> multiset(r)[e] == multiset(es)[e]
    ensures IsSubsequence(r, es)
  {
    Filter(InDept(department), es)
  }

  /** Adding with an id nobody has keeps ids unique. */
  lemma AddKeepsUniqueIds(es: seq<Employee>, d: Draft, id: string)
    requires UniqueIds(es) && id !in Ids(es)
    ensures UniqueIds(Appended(es, d, id))
  {
    var r := Appended(es, d, id);
    forall i, j | 0 <= i < j < |r| ensures r[i].id != r[j].id {
      if j == |es| {
        assert r[i] in es;
      }
    }
  }

  /** The store does not check the new id: adding with an id already present
      yields two records with that id, and a later delete of it removes both. */
  lemma AddWithTakenId(es: seq<Employee>, d: Draft, id: string)
    requires id in Ids(es)
    ensures !UniqueIds(Appended(es, d, id))
    ensures |Deleted(Appended(es, d, id), id)| < |es|
  {
    var prior :| prior in es && prior.id == id;
    var r := Appended(es, d, id);
    var k :| 0 <= k < |es| && es[k] == prior;
    assert r[k].id == r[|es|].id;
    FilterTwoDropped(OtherId(id), r, k, |es|);
  }

  lemma {:induction false} FilterTwoDropped<T(!new)>(p: T -> bool, s: seq<T>, i: nat, j: nat)
    requires i < j < |s| && !p(s[i]) && !p(s[j])
    ensures |Filter(p, s)| <= |s| - 2
  {
    if i == 0 {
      FilterDrops(p, s[1..], s[j]);
    } else {
      FilterTwoDropped(p, s[1..], i - 1, j - 1);
    }
  }

  /** Update with an id that matches nothing leaves the collection as it was. */
  lemma UpdateMissingIsNoop(es: seq<Employee>, id: string, p: Patch)
    requires id !in Ids(es)
    ensures Updated(es, id, p) == es
  {
    forall i | 0 <= i < |es| ensures Updated(es, id, p)[i] == es[i] {
      assert es[i] in es;
    }
  }

  /** Updating twice with the same id and partial is updating once: the merged
      records either keep the id and absorb the partial again, or took another
      id and are not matched a second time. */
  lemma UpdateIdempotent(es: seq<Employee>, id: string, p: Patch)
    ensures Updated(Updated(es, id, p), id, p) == Updated(es, id, p)
  {
    var r := Updated(es, id, p);
    forall i | 0 <= i < |es| ensures Updated(r, id, p)[i] == r[i] {
      MergeLaws(es[i], p);
    }
  }

  /** An update whose partial does not name `id` keeps every record's id,
      so unique ids stay unique. */
  lemma UpdateKeepsIds(es: seq<Employee>, id: string, p: Patch)
    requires p.id.None?
    ensures forall i :: 0 <= i < |es| ==> Updated(es, id, p)[i].id == es[i].id
    ensures UniqueIds(es) ==> UniqueIds(Updated(es, id, p))
  {
  }

  /** Delete with an id that matches nothing leaves the collection as it was;
      deleting twice is deleting once. */
  lemma DeleteLaws(es: seq<Employee>, id: string)
    ensures id !in Ids(es) ==> Deleted(es, id) == es
    ensures Deleted(Deleted(es, id), id) == Deleted(es, id)
  {
    if id !in Ids(es) {
      FilterAll(OtherId(id), es);
    }
    FilterAll(OtherId(id), Deleted(es, id));
  }

  /** With unique ids, deleting a present id removes exactly one record. */
  lemma {:induction false} DeleteRemovesOne(es: seq<Employee>, id: string)
    requires UniqueIds(es) && id in Ids(es)
    ensures |Deleted(es, id)| == |es| - 1
  {
    var rest := es[1..];
    assert UniqueIds(rest) by {
      forall i, j | 0 <= i < j < |rest| ensures rest[i].id != rest[j].id {
        assert rest[i] == es[i + 1] && rest[j] == es[j + 1];
      }
    }
    if es[0].id == id {
      assert id !in Ids(rest) by {
        forall e | e in rest ensures e.id != id {
          var k :| 0 <= k < |rest| && rest[k] == e;
          assert es[k + 1] == e;
        }
      }
      FilterAll(OtherId(id), rest);
    } else {
      var e :| e in es && e.id == id;
      assert e in rest;
      DeleteRemovesOne(rest, id);
    }
  }

  /** Filtering keeps unique ids unique; in particular deletion does. */
  lemma {:induction false} FilterKeepsUniqueIds(p: Employee -> bool, es: seq<Employee>)
    requires UniqueIds(es)
    ensures UniqueIds(Filter(p, es))
  {
    if es != [] {
      var rest := es[1..];
      assert UniqueIds(rest) by {
        forall i, j | 0 <= i < j < |rest| ensures rest[i].id != rest[j].id {
          assert rest[i] == es[i + 1] && rest[j] == es[j + 1];
        }
      }
      FilterKeepsUniqueIds(p, rest);
      if p(es[0]) {
        var r := Filter(p, es);
        var fr := Filter(p, rest);
        assert r == [es[0]] + fr;
        forall i, j | 0 <= i < j < |r| ensures r[i].id != r[j].id {
          if i == 0 {
            assert r[j] == fr[j - 1] && fr[j - 1] in rest;
            var k :| 0 <= k < |rest| && rest[k] == r[j];
            assert es[k + 1] == r[j];
          } else {
            assert r[i] == fr[i - 1] && r[j] == fr[j - 1];
          }
        }
      }
    }
  }

  /** The workforce store. `stored` is the durable `employees` record. */
  class Store {
    var employees: seq<Employee>
    const departments: seq<Department>
    ghost var stored: seq<Employee>

    /** The durable copy equals the in-memory one and the catalog is the fixed one. */
    ghost predicate Valid()
      reads this
    {
      stored == employees && departments == SampleDepartments
    }

    /** Mounting the store: use the saved collection when there is one, otherwise
        hold the sample employees and write them out. */
    constructor (saved: Option<seq<Employee>>)
      ensures Valid()
      ensures employees == if saved.Some? then saved.value else SampleEmployees
    {
      departments := SampleDepartments;
      if saved.Some? {
        employees := saved.value;
        stored := saved.value;
      } else {
        employees := SampleEmployees;
        stored := SampleEmployees;
      }
    }

    /** `addEmployee`: append the draft with the supplied id, then persist. */
    method AddEmployee(d: Draft, id: string)
      requires Valid()
      modifies this
      ensures Valid()
      ensures employees == Appended(old(employees), d, id)
    {
      employees := Appended(employees, d, id);
      stored := employees;
    }

    /** `updateEmployee`: merge the partial into every record with the id, then persist. */
    method UpdateEmployee(id: string, p: Patch)
      requires Valid()
      modifies this
      ensures Valid()
      ensures employees == Updated(old(employees), id, p)
    {
      employees := Updated(employees, id, p);
      stored := employees;
    }

    /** `deleteEmployee`: drop every record with the id, then persist. */
    method DeleteEmployee(id: string)
      requires Valid()
      modifies this
      ensures Valid()
      ensures employees == Deleted(old(employees), id)
    {
      employees := Deleted(employees, id);
      stored := employees;
    }

    /** `getEmployeesByLevel`: the records at that level, in collection order. */
    method EmployeesByLevel(level: string) returns (r: seq<Employee>)
      ensures forall e :: e in r <==> e in employees && LevelName(e.experienceLevel) == level
      ensures IsSubsequence(r, employees)
      ensures r == OfLevel(employees, level)
    {
      r := OfLevel(employees, level);
    }

    /** `getEmployeesByDepartment`: the records of that department string, in collection order. */
    method EmployeesByDepartment(department: string) returns (r: seq<Employee>)
      ensures forall e :: e in r <==> e in employees && e.department == department
      ensures IsSubsequence(r, employees)
      ensures r == InDepartment(employees, department)
    {
      r := InDepartment(employees, department);
    }
  }
}
