/** The add-employee form: its initial state, the comma-separated skills parser
    and the record handed to the store on submit. */
module AddEmployee {
  import opened Options
  import opened Seqs
  import opened Text
  import opened EmployeeTypes
  import opened EmployeeStore

  /** The form state. `skills` is the raw text field. */
  datatype FormState = FormState(
    name: string,
    email: string,
    position: string,
    department: string,
    experienceLevel: Level,
    yearsOfExperience: nat,
    salary: nat,
    joinDate: string,
    skills: string,
    status: Status)

  /** The form when it opens: empty texts, junior, active, 0 years, 0 salary and
      today's date (supplied by the caller). */
  function InitialForm(today: string): (f: FormState)
    ensures f.experienceLevel == Junior && f.status == Active
    ensures f.yearsOfExperience == 0 && f.salary == 0
    ensures f.name == "" && f.email == "" && f.position == "" && f.department == "" && f.skills == ""
    ensures f.joinDate == today
  {
    FormState("", "", "", "", Junior, 0, 0, today, "", Active)
  }

  predicate NonEmpty(s: string) { |s| > 0 }

  /** `skills.split(',').map(skill => skill.trim()).filter(skill => skill.length > 0)`:
      every trimmed, non-empty piece between commas and nothing else, each as
      often as it occurs, in input order. */
  function ParseSkills(input: string): (r: seq<string>)
    ensures forall s :: s in r ==> s != [] && !IsSpace(s[0]) && !IsSpace(s[|s| - 1])
    ensures |r| <= Occurrences(input, ',') + 1
    ensures IsSubsequence(r, Map(Trim, Split(input)))
    ensures forall s :: s in r <==> s in Map(Trim, Split(input)) && s != []
    ensures forall s :: s != [] ==> multiset(r)[s] == multiset(Map(Trim, Split(input)))[s]
  {
    Filter(NonEmpty, Map(Trim, Split(input)))
  }

  /** The parse is empty exactly when the input holds only commas and whitespace
      (the empty input included). */
  lemma ParseSkillsEmpty(input: string)
    ensures ParseSkills(input) == [] <==> forall i :: 0 <= i < |input| ==> input[i] == ',' || IsSpace(input[i])
  {
    var parts := Split(input);
    var trimmed := Map(Trim, parts);
    SplitCovers(input);
    if ParseSkills(input) == [] {
      forall i | 0 <= i < |input| ensures input[i] == ',' || IsSpace(input[i]) {
        var c := input[i];
        if c != ',' {
          assert c in input;
          var p :| p in parts && c in p;
          var k :| 0 <= k < |parts| && parts[k] == p;
          assert trimmed[k] in trimmed && trimmed[k] == Trim(p);
          assert Trim(p) == [];
          var j :| 0 <= j < |p| && p[j] == c;
        }
      }
    } else {
      var x := ParseSkills(input)[0];
      assert x in ParseSkills(input);
      var k :| 0 <= k < |trimmed| && trimmed[k] == x;
      var p := parts[k];
      assert Trim(p) != [];
      var j :| 0 <= j < |p| && !IsSpace(p[j]);
      assert p[j] in p && p in parts;
      var c := p[j];
      assert c in input && c != ',';
      var i :| 0 <= i < |input| && input[i] == c;
    }
  }

  /** The record `handleSubmit` passes to `addEmployee`: the form state with the
      skills text replaced by the parsed list; no manager. */
  function Submitted(f: FormState): (d: Draft)
    ensures d.skills == ParseSkills(f.skills) && d.managerId == None
    ensures d.name == f.name && d.email == f.email && d.position == f.position
    ensures d.department == f.department && d.experienceLevel == f.experienceLevel
    ensures d.yearsOfExperience == f.yearsOfExperience && d.salary == f.salary
    ensures d.joinDate == f.joinDate && d.status == f.status
  {
    Draft(f.name, f.email, f.position, f.department, f.experienceLevel,
          f.yearsOfExperience, f.salary, f.joinDate, ParseSkills(f.skills), f.status, None)
  }

  /** `handleSubmit`: one call of `addEmployee`, so the collection grows by exactly
      the submitted record, with the id the store assigns. */
  method HandleSubmit(store: Store, f: FormState, id: string)
    requires store.Valid()
    modifies store
    ensures store.Valid()
    ensures store.employees == old(store.employees) + [WithId(Submitted(f), id)]
  {
    store.AddEmployee(Submitted(f), id);
  }
}
