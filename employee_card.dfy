/** One employee's card: who may edit, the status toggle, the confirmed delete
    and the level badge colour. */
module EmployeeCard {
  import opened Options
  import opened EmployeeTypes
  import opened EmployeeStore
  import opened Session

  /** `canEdit`: the signed-in user is an admin or a manager; with nobody signed in, false. */
  function CanEdit(user: Option<User>): (r: bool)
    ensures user.None? ==> !r
    ensures user.Some? ==> (r <==> user.value.role in ["admin", "manager"])
  {
    user.Some? && (user.value.role == "admin" || user.value.role == "manager")
  }

  /** The status the toggle sets. */
  function Toggled(s: Status): (r: Status)
    ensures r != s
  {
    if s == Active then Inactive else Active
  }

  /** Toggling twice restores the original status. */
  lemma ToggleTwice(s: Status)
    ensures Toggled(Toggled(s)) == s
  {
  }

  /** `{ status: newStatus }`: a partial that names the status and nothing else. */
  function StatusPatch(s: Status): (p: Patch)
    ensures PatchObject(p) == map[StatusKey := StatusValue(s)]
  {
    var p := EmptyPatch.(status := Some(s));
    assert forall k :: k in AllFields && PatchFieldOf(p, k).Some? <==> k == StatusKey;
    p
  }

  /** By the store's merge rule the toggle changes the status of the records with
      the card's id and nothing else: no other field, no other record, no order. */
  lemma ToggleChangesOnlyStatus(es: seq<Employee>, e: Employee)
    ensures var r := Updated(es, e.id, StatusPatch(Toggled(e.status)));
            |r| == |es| &&
            forall i :: 0 <= i < |es| ==>
              r[i] == if es[i].id == e.id then es[i].(status := Toggled(e.status)) else es[i]
  {
  }

  /** `handleStatusToggle`: update the card's record with the opposite status. */
  method HandleStatusToggle(store: Store, e: Employee)
    requires store.Valid()
    modifies store
    ensures store.Valid()
    ensures store.employees == Updated(old(store.employees), e.id, StatusPatch(Toggled(e.status)))
  {
    store.UpdateEmployee(e.id, StatusPatch(Toggled(e.status)));
  }

  /** `handleDelete`: delete only when the confirmation answer is yes. */
  method HandleDelete(store: Store, e: Employee, confirmed: bool)
    requires store.Valid()
    modifies store
    ensures store.Valid()
    ensures store.employees == if confirmed then Deleted(old(store.employees), e.id) else old(store.employees)
  {
    if confirmed {
      store.DeleteEmployee(e.id);
    }
  }

  datatype Control = DetailsButton | StatusButton | DeleteButton

  /** The buttons on the card: details always, toggle and delete only when the user can edit. */
  function Controls(user: Option<User>): (r: seq<Control>)
    ensures DetailsButton in r
    ensures StatusButton in r <==> CanEdit(user)
    ensures DeleteButton in r <==> CanEdit(user)
  {
    [DetailsButton] + if CanEdit(user) then [StatusButton, DeleteButton] else []
  }

  const DefaultColor := "bg-gray-100 text-gray-800"

  /** `getExperienceColor`: a class per level, the grey default for anything else. */
  function ExperienceColor(level: string): (r: string)
    ensures level !in ["junior", "mid", "senior", "lead"] ==> r == DefaultColor
  {
    match level
    case "junior" => "bg-red-100 text-red-800"
    case "mid" => "bg-yellow-100 text-yellow-800"
    case "senior" => "bg-green-100 text-green-800"
    case "lead" => "bg-blue-100 text-blue-800"
    case _ => DefaultColor
  }

  /** The four levels get four different classes, none of them the default. */
  lemma ExperienceColorsDistinct(a: Level, b: Level)
    ensures ExperienceColor(LevelName(a)) != DefaultColor
    ensures a != b ==> ExperienceColor(LevelName(a)) != ExperienceColor(LevelName(b))
  {
  }
}
