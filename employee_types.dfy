/** The records of the workforce data: `Employee` and `Department`, and
    `Partial<Employee>`, the shape an update carries. */
module EmployeeTypes {
  import opened Options

  /** `'junior' | 'mid' | 'senior' | 'lead'`. */
  datatype Level = Junior | Mid | Senior | Lead

  /** The string the source stores and compares for a level. */
  function LevelName(l: Level): (r: string)
    ensures r in ["junior", "mid", "senior", "lead"]
  {
    match l
    case Junior => "junior"
    case Mid => "mid"
    case Senior => "senior"
    case Lead => "lead"
  }

  /** `'active' | 'inactive'`. */
  datatype Status = Active | Inactive

  /** One employee. `department` is a free string, not a reference to a
      `Department`; `managerId` is optional and never checked; `skills` is an
      ordered list that may repeat. Salary and years are non-negative integers. */
  datatype Employee = Employee(
    id: string,
    name: string,
    email: string,
    position: string,
    department: string,
    experienceLevel: Level,
    yearsOfExperience: nat,
    salary: nat,
    joinDate: string,
    skills: seq<string>,
    status: Status,
    managerId: Option<string>)

  datatype Department = Department(id: string, name: string, description: string)

  /** `Omit<Employee, 'id'>`: what the add form hands to the store. */
  datatype Draft = Draft(
    name: string,
    email: string,
    position: string,
    department: string,
    experienceLevel: Level,
    yearsOfExperience: nat,
    salary: nat,
    joinDate: string,
    skills: seq<string>,
    status: Status,
    managerId: Option<string>)

  /** `Partial<Employee>`: each field either absent (`None`) or given. */
  datatype Patch = Patch(
    id: Option<string>,
    name: Option<string>,
    email: Option<string>,
    position: Option<string>,
    department: Option<string>,
    experienceLevel: Option<Level>,
    yearsOfExperience: Option<nat>,
    salary: Option<nat>,
    joinDate: Option<string>,
    skills: Option<seq<string>>,
    status: Option<Status>,
    managerId: Option<string>)

  /** `{}`: the partial naming no field. */
  const EmptyPatch := Patch(None, None, None, None, None, None, None, None, None, None, None, None)

  /** The keys of an employee object. */
  datatype Field =
    | IdKey | NameKey | EmailKey | PositionKey | DepartmentKey | LevelKey
    | YearsKey | SalaryKey | JoinDateKey | SkillsKey | StatusKey | ManagerKey

  /** The values an employee object's keys hold. */
  datatype Value = Text(text: string) | Number(n: nat) | LevelValue(level: Level)
                 | StatusValue(status: Status) | Strings(items: seq<string>)

  const AllFields: set<Field> := {IdKey, NameKey, EmailKey, PositionKey, DepartmentKey, LevelKey,
                                   YearsKey, SalaryKey, JoinDateKey, SkillsKey, StatusKey, ManagerKey}

  /** The value of key `k` in the object for `e`, when the key is present. */
  function FieldOf(e: Employee, k: Field): Option<Value> {
    match k
    case IdKey => Some(Text(e.id))
    case NameKey => Some(Text(e.name))
    case EmailKey => Some(Text(e.email))
    case PositionKey => Some(Text(e.position))
    case DepartmentKey => Some(Text(e.department))
    case LevelKey => Some(LevelValue(e.experienceLevel))
    case YearsKey => Some(Number(e.yearsOfExperience))
    case SalaryKey => Some(Number(e.salary))
    case JoinDateKey => Some(Text(e.joinDate))
    case SkillsKey => Some(Strings(e.skills))
    case StatusKey => Some(StatusValue(e.status))
    case ManagerKey => if e.managerId.Some? then Some(Text(e.managerId.value)) else None
  }

  /** The value the partial gives key `k`, when it names it. */
  function PatchFieldOf(p: Patch, k: Field): Option<Value> {
    match k
    case IdKey => if p.id.Some? then Some(Text(p.id.value)) else None
    case NameKey => if p.name.Some? then Some(Text(p.name.value)) else None
    case EmailKey => if p.email.Some? then Some(Text(p.email.value)) else None
    case PositionKey => if p.position.Some? then Some(Text(p.position.value)) else None
    case DepartmentKey => if p.department.Some? then Some(Text(p.department.value)) else None
    case LevelKey => if p.experienceLevel.Some? then Some(LevelValue(p.experienceLevel.value)) else None
    case YearsKey => if p.yearsOfExperience.Some? then Some(Number(p.yearsOfExperience.value)) else None
    case SalaryKey => if p.salary.Some? then Some(Number(p.salary.value)) else None
    case JoinDateKey => if p.joinDate.Some? then Some(Text(p.joinDate.value)) else None
    case SkillsKey => if p.skills.Some? then Some(Strings(p.skills.value)) else None
    case StatusKey => if p.status.Some? then Some(StatusValue(p.status.value)) else None
    case ManagerKey => if p.managerId.Some? then Some(Text(p.managerId.value)) else None
  }

  /** The employee as the JavaScript object it is at run time: a map from its
      keys to their values, with no `managerId` key when there is no manager. */
  function AsObject(e: Employee): map<Field, Value> {
    map k | k in AllFields && FieldOf(e, k).Some? :: FieldOf(e, k).value
  }

  /** The partial as a JavaScript object: only the keys it names. */
  function PatchObject(p: Patch): map<Field, Value> {
    map k | k in AllFields && PatchFieldOf(p, k).Some? :: PatchFieldOf(p, k).value
  }

  /** Two employees with the same object view are the same employee. */
  lemma AsObjectInjective(a: Employee, b: Employee)
    requires AsObject(a) == AsObject(b)
    ensures a == b
  {
    assert AsObject(a)[IdKey] == AsObject(b)[IdKey];
    assert AsObject(a)[NameKey] == AsObject(b)[NameKey];
    assert AsObject(a)[EmailKey] == AsObject(b)[EmailKey];
    assert AsObject(a)[PositionKey] == AsObject(b)[PositionKey];
    assert AsObject(a)[DepartmentKey] == AsObject(b)[DepartmentKey];
    assert AsObject(a)[LevelKey] == AsObject(b)[LevelKey];
    assert AsObject(a)[YearsKey] == AsObject(b)[YearsKey];
    assert AsObject(a)[SalaryKey] == AsObject(b)[SalaryKey];
    assert AsObject(a)[JoinDateKey] == AsObject(b)[JoinDateKey];
    assert AsObject(a)[SkillsKey] == AsObject(b)[SkillsKey];
    assert AsObject(a)[StatusKey] == AsObject(b)[StatusKey];
    assert ManagerKey in AsObject(a) <==> a.managerId.Some?;
    if a.managerId.Some? {
      assert AsObject(a)[ManagerKey] == AsObject(b)[ManagerKey];
    }
  }
}
