/** The landing page: the demo accounts it seeds into an empty user list, the
    credentials it displays, and what it shows a signed-in user. */
module DemoAccounts {
  import opened Options
  import opened Session

  /** A registered user as kept in the user list, password included. */
  datatype StoredUser = StoredUser(id: string, email: string, password: string, name: string, role: string)

  /** The three demo accounts, one per role, all with the password "password". */
  const DemoUsers: seq<StoredUser> := [
    StoredUser("1", "admin@company.com", "password", "Admin User", "admin"),
    StoredUser("2", "manager@company.com", "password", "Manager User", "manager"),
    StoredUser("3", "employee@company.com", "password", "Employee User", "employee")
  ]

  /** The user list after the landing page's first effect: the demo accounts
      when the list is empty, the list itself otherwise. */
  function Seeded(users: seq<StoredUser>): (r: seq<StoredUser>)
    ensures r != []
    ensures users != [] ==> r == users
    ensures users == [] ==> r == DemoUsers
  {
    if |users| == 0 then DemoUsers else users
  }

  /** Seeding again changes nothing. */
  lemma SeedIdempotent(users: seq<StoredUser>)
    ensures Seeded(Seeded(users)) == Seeded(users)
  {
  }

  /** The demo accounts have distinct ids and e-mails and cover each role once. */
  lemma DemoUsersShape()
    ensures forall i, j :: 0 <= i < j < |DemoUsers| ==>
              DemoUsers[i].id != DemoUsers[j].id && DemoUsers[i].email != DemoUsers[j].email && DemoUsers[i].role != DemoUsers[j].role
    ensures forall role :: role in ["admin", "manager", "employee"] <==> exists u :: u in DemoUsers && u.role == role
    ensures forall u :: u in DemoUsers ==> u.password == "password"
  {
    assert DemoUsers[0].role == "admin" && DemoUsers[1].role == "manager" && DemoUsers[2].role == "employee";
  }

  /** The e-mail and password pairs the "Demo Credentials" panel lists. */
  const ShownCredentials: seq<(string, string)> := [
    ("admin@company.com", "password"),
    ("manager@company.com", "password"),
    ("employee@company.com", "password")
  ]

  /** Every credential pair on the panel signs in to the seeded account of the same card. */
  lemma CredentialsMatchSeed()
    ensures |ShownCredentials| == |DemoUsers|
    ensures forall i :: 0 <= i < |DemoUsers| ==> ShownCredentials[i] == (DemoUsers[i].email, DemoUsers[i].password)
  {
  }

  /** What the landing page renders. */
  datatype Landing = WelcomeBack(name: string) | Marketing

  /** A signed-in user is greeted by name, anybody else sees the marketing page. */
  function LandingView(user: Option<User>): (r: Landing)
    ensures r.WelcomeBack? <==> user.Some?
    ensures r.WelcomeBack? ==> r.name == user.value.name
  {
    if user.Some? then WelcomeBack(user.value.name) else Marketing
  }

  /** The browser's persisted user list. */
  class UserStorage {
    var users: seq<StoredUser>

    constructor (saved: seq<StoredUser>)
      ensures users == saved
    {
      users := saved;
    }

    /** The landing page's effect: store the demo accounts when no user is registered. */
    method SeedDemoUsers()
      modifies this
      ensures users == Seeded(old(users))
      ensures old(users) != [] ==> users == old(users)
    {
      if |users| == 0 {
        users := DemoUsers;
      }
    }
  }
}
