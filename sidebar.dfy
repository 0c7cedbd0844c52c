/** The side navigation: the fixed list of pages, the entries a role may see
    and the highlighted entry. */
module Sidebar {
  import opened Options
  import opened Seqs
  import opened Session
  import opened ProtectedRoute
  import EmployeeCard

  /** An entry; `roles` absent means every role sees it. The icon is not modelled. */
  datatype NavItem = NavItem(name: string, href: string, roles: Option<seq<string>>)

  const AddEmployeeItem := NavItem("Add Employee", "/add-employee", Some(["admin", "manager"]))
  const ReportsItem := NavItem("Reports", "/reports", Some(["admin", "manager"]))

  /** The six entries, in display order. */
  const Navigation: seq<NavItem> := [
    NavItem("Dashboard", "/dashboard", None),
    NavItem("All Employees", "/employees", None),
    AddEmployeeItem,
    NavItem("Departments", "/departments", None),
    NavItem("Experience Levels", "/experience-levels", None),
    ReportsItem
  ]

  /** `user?.role || 'employee'`: a missing user and an empty role both count as an employee. */
  function EffectiveRole(user: Option<User>): (r: string)
    ensures r != ""
    ensures user.Some? && user.value.role != "" ==> r == user.value.role
    ensures user.None? || user.value.role == "" ==> r == "employee"
  {
    if user.Some? && user.value.role != "" then user.value.role else "employee"
  }

  /** The entry is open to the role. */
  function Permits(role: string): NavItem -> bool {
    (item: NavItem) => item.roles.None? || role in item.roles.value
  }

  /** `filteredNavigation`: the entries open to the effective role, in display order. */
  function Visible(user: Option<User>): (r: seq<NavItem>)
    ensures IsSubsequence(r, Navigation)
    ensures forall item :: item in r <==> item in Navigation && (item.roles.None? || EffectiveRole(user) in item.roles.value)
  {
    Filter(Permits(EffectiveRole(user)), Navigation)
  }

  function Href(item: NavItem): string { item.href }

  /** `location.pathname === item.href`. */
  function IsActive(item: NavItem, path: string): (r: bool)
    ensures r <==> Href(item) == path
  {
    item.href == path
  }

  /** Signed out, only the four unrestricted entries show, in display order. */
  lemma SignedOutNavigation()
    ensures forall item :: item in Visible(None) <==> item in Navigation && item.roles.None?
    ensures AddEmployeeItem !in Visible(None) && ReportsItem !in Visible(None)
  {
    EditorRoles(None);
    EntriesMatchRoutes();
    RestrictedEntries(None);
  }

  /** "Add Employee" and "Reports" are listed exactly for admins and managers,
      the same users the employee card lets edit. */
  lemma RestrictedEntries(user: Option<User>)
    ensures AddEmployeeItem in Visible(user) <==> EmployeeCard.CanEdit(user)
    ensures ReportsItem in Visible(user) <==> EmployeeCard.CanEdit(user)
  {
    assert Navigation[2] == AddEmployeeItem && Navigation[5] == ReportsItem;
    EditorRoles(user);
  }

  /** The effective role is one of the restricted entries' roles exactly when the user can edit. */
  lemma EditorRoles(user: Option<User>)
    ensures EffectiveRole(user) in ["admin", "manager"] <==> EmployeeCard.CanEdit(user)
  {
    var editors := ["admin", "manager"];
    if user.None? || user.value.role == "" {
      assert EffectiveRole(user) == "employee";
      assert "employee" != editors[0] && "employee" != editors[1];
    }
  }

  /** The other four entries are listed for everybody. */
  lemma OpenEntries(user: Option<User>)
    ensures forall item :: item in Navigation && item.roles.None? ==> item in Visible(user)
  {
  }

  /** No two entries share a link target. */
  lemma NavigationTargetsDistinct()
    ensures forall i, j :: 0 <= i < j < |Navigation| ==> Href(Navigation[i]) != Href(Navigation[j])
  {
  }

  /** At most one listed entry is highlighted, whatever the path. */
  lemma AtMostOneActive(user: Option<User>, path: string)
    ensures forall i, j :: 0 <= i < j < |Visible(user)| ==>
              !(IsActive(Visible(user)[i], path) && IsActive(Visible(user)[j], path))
  {
    NavigationTargetsDistinct();
    SubsequenceKeysDistinct(Href, Visible(user), Navigation);
  }

  /** Each entry carries the role list its page is guarded with. */
  lemma EntriesMatchRoutes()
    ensures forall item :: item in Navigation ==> item.roles == RouteRequirement(item.href)
  {
  }

  /** For a signed-in user, an entry is listed exactly when its page lets the
      user in: the empty-role fallback to "employee" never opens a guarded page. */
  lemma VisibleIffAdmitted(u: User)
    ensures forall item :: item in Navigation ==>
              (item in Visible(Some(u)) <==> Decide(false, Some(u), RouteRequirement(item.href)) == Children)
  {
    EntriesMatchRoutes();
    forall item | item in Navigation
      ensures item in Visible(Some(u)) <==> Decide(false, Some(u), RouteRequirement(item.href)) == Children
    {
      PermitsIffAdmitted(u, item);
    }
  }

  /** An entry whose role list is its page's guard is open to a signed-in user
      exactly when the guard admits that user. */
  lemma PermitsIffAdmitted(u: User, item: NavItem)
    requires item.roles == RouteRequirement(item.href)
    ensures Permits(EffectiveRole(Some(u)))(item) <==> Decide(false, Some(u), RouteRequirement(item.href)) == Children
  {
    EditorRoles(Some(u));
  }
}
