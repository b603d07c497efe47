/** The application entry: the login decision, the page a role is sent to, and the
    seeding of the demo users. */
module App {
  import opened Wrappers
  import opened Strings

  // ---------------------------------------------------------------------------
  // Login
  // ---------------------------------------------------------------------------

  /** What the users table gave for the username: no database, a failed query, no
      row, or the row's columns. */
  datatype DbLookup =
    | NoDatabase
    | QueryError
    | NoRow
    | Row(userId: int, username: string, passwordHash: string, salt: string, role: string,
          firstName: string, lastName: string, isActive: int)

  datatype AuthResult = Failed | Authenticated(role: string, userId: int, username: string, name: string)

  datatype BuiltInUser = BuiltInUser(password: string, role: string, userId: int, name: string)

  /** The built-in accounts that work whatever the database holds. */
  const BuiltInUsers: map<string, BuiltInUser> := map[
    "admin" := BuiltInUser("admin123", "admin", 1, "System Administrator"),
    "inspector" := BuiltInUser("test123", "inspector", 2, "John Smith"),
    "inspector1" := BuiltInUser("test123", "inspector", 2, "John Smith"),
    "inspector2" := BuiltInUser("test123", "inspector", 3, "Sarah Johnson"),
    "developer" := BuiltInUser("test123", "developer", 4, "Mike Chen"),
    "builder" := BuiltInUser("test123", "builder", 5, "David Wilson")]

  /** The built-in table's answer. */
  function BuiltInLogin(username: string, password: string): (r: AuthResult)
    ensures r.Authenticated? <==> username in BuiltInUsers && BuiltInUsers[username].password == password
    ensures r.Authenticated? ==> r.role == BuiltInUsers[username].role && r.userId == BuiltInUsers[username].userId
                                 && r.username == username && r.name == BuiltInUsers[username].name
  {
    if username in BuiltInUsers && BuiltInUsers[username].password == password then
      var u := BuiltInUsers[username];
      Authenticated(u.role, u.userId, username, u.name)
    else Failed
  }

  /** `simple_authenticate`: an inactive database user fails at once; a database user
      whose salted hash (`sha256` is the hex digest) matches is logged in with the row's
      details; anything else falls back to the built-in table. */
  function SimpleAuthenticate(username: string, password: string, lookup: DbLookup, sha256: string -> string): (r: AuthResult)
    ensures lookup.Row? && lookup.isActive != 1 ==> r == Failed
    ensures lookup.Row? && lookup.isActive == 1 && sha256(password + lookup.salt) == lookup.passwordHash ==>
              r == Authenticated(lookup.role, lookup.userId, lookup.username, Trim(lookup.firstName + " " + lookup.lastName))
    ensures lookup.Row? && lookup.isActive == 1 && sha256(password + lookup.salt) != lookup.passwordHash ==>
              r == BuiltInLogin(username, password)
    ensures !lookup.Row? ==> r == BuiltInLogin(username, password)
  {
    match lookup
    case Row(id, dbUsername, hash, salt, role, first, last, active) =>
      if active != 1 then Failed
      else if sha256(password + salt) == hash then Authenticated(role, id, dbUsername, Trim(first + " " + last))
      else BuiltInLogin(username, password)
    case _ => BuiltInLogin(username, password)
  }

  /** A deactivated account cannot log in, not even with a built-in password. */
  lemma InactiveNeverLogsIn(username: string, password: string, lookup: DbLookup, sha256: string -> string)
    requires lookup.Row? && lookup.isActive != 1
    ensures SimpleAuthenticate(username, password, lookup, sha256) == Failed
    ensures username in BuiltInUsers && BuiltInUsers[username].password == password ==>
              SimpleAuthenticate(username, password, lookup, sha256) != BuiltInLogin(username, password)
  {
  }

  /** A login succeeds only with the database hash or a built-in password. */
  lemma LoginNeedsCredential(username: string, password: string, lookup: DbLookup, sha256: string -> string)
    requires SimpleAuthenticate(username, password, lookup, sha256).Authenticated?
    ensures (lookup.Row? && lookup.isActive == 1 && sha256(password + lookup.salt) == lookup.passwordHash)
            || (username in BuiltInUsers && BuiltInUsers[username].password == password)
  {
  }

  /** The admin's built-in password works when the database is down. */
  lemma AdminFallback(sha256: string -> string)
    ensures SimpleAuthenticate("admin", "admin123", NoDatabase, sha256) == Authenticated("admin", 1, "admin", "System Administrator")
  {
  }

  // ---------------------------------------------------------------------------
  // Routing
  // ---------------------------------------------------------------------------

  /** The sidebar's page: fixed for admin, inspector, owner and builder; the
      developer's selection out of two; "Dashboard" for anyone else. */
  function SidebarPage(role: string, developerChoice: bool): (r: string)
    ensures role == "admin" ==> r == "Admin Panel"
    ensures role == "inspector" ==> r == "Inspector Dashboard"
    ensures role == "owner" ==> r == "Owner Dashboard"
    ensures role == "developer" ==> r == (if developerChoice then "Inspection Reports" else "Developer Dashboard")
    ensures role == "builder" ==> r == "Builder Dashboard"
  {
    if role == "admin" then "Admin Panel"
    else if role == "inspector" then "Inspector Dashboard"
    else if role == "owner" then "Owner Dashboard"
    else if role == "developer" then (if developerChoice then "Inspection Reports" else "Developer Dashboard")
    else if role == "builder" then "Builder Dashboard"
    else "Dashboard"
  }

  datatype View = AdminView | InspectorView | BuilderView | OwnerView | DeveloperView | ReportsView | WelcomeView

  /** The main area: admin, inspector and builder by role; otherwise by the page's name. */
  function Route(role: string, page: string): (v: View)
    ensures role == "admin" ==> v == AdminView
    ensures role == "inspector" ==> v == InspectorView
    ensures role == "builder" ==> v == BuilderView
    ensures v == OwnerView ==> Contains(page, "Owner Dashboard")
    ensures v == DeveloperView ==> Contains(page, "Developer Dashboard")
    ensures v == ReportsView ==> Contains(page, "Inspection Reports")
  {
    if role == "admin" then AdminView
    else if role == "inspector" then InspectorView
    else if role == "builder" then BuilderView
    else if Contains(page, "Owner Dashboard") then OwnerView
    else if Contains(page, "Developer Dashboard") then DeveloperView
    else if Contains(page, "Inspection Reports") then ReportsView
    else WelcomeView
  }

  /** Which of the three page names occur in the sidebar's own page names. */
  lemma OwnerPageFacts()
    ensures Contains("Owner Dashboard", "Owner Dashboard")
  {
    assert StartsWith("Owner Dashboard", "Owner Dashboard");
  }

  lemma DeveloperPageFacts()
    ensures !Contains("Developer Dashboard", "Owner Dashboard")
    ensures Contains("Developer Dashboard", "Developer Dashboard")
  {
    NoCharNoContains("Developer Dashboard", "Owner Dashboard", 'O');
    assert StartsWith("Developer Dashboard", "Developer Dashboard");
  }

  lemma ReportsPageNotOwner()
    ensures !Contains("Inspection Reports", "Owner Dashboard")
  {
    NoCharNoContains("Inspection Reports", "Owner Dashboard", 'O');
  }

  lemma ReportsPageNotDeveloper()
    ensures !Contains("Inspection Reports", "Developer Dashboard")
  {
    NoCharNoContains("Inspection Reports", "Developer Dashboard", 'D');
  }

  lemma ReportsPageItself()
    ensures Contains("Inspection Reports", "Inspection Reports")
  {
    assert StartsWith("Inspection Reports", "Inspection Reports");
  }

  /** For a role routed by page name, the first name the page contains decides. */
  lemma RouteByPageName(role: string, page: string)
    requires role != "admin" && role != "inspector" && role != "builder"
    ensures Contains(page, "Owner Dashboard") ==> Route(role, page) == OwnerView
    ensures !Contains(page, "Owner Dashboard") && Contains(page, "Developer Dashboard") ==> Route(role, page) == DeveloperView
    ensures !Contains(page, "Owner Dashboard") && !Contains(page, "Developer Dashboard") && Contains(page, "Inspection Reports") ==>
              Route(role, page) == ReportsView
    ensures !Contains(page, "Owner Dashboard") && !Contains(page, "Developer Dashboard") && !Contains(page, "Inspection Reports") ==>
              Route(role, page) == WelcomeView
  {
  }

  /** The owner lands on the owner dashboard. */
  lemma OwnerRouted(developerChoice: bool)
    ensures Route("owner", SidebarPage("owner", developerChoice)) == OwnerView
  {
    OwnerPageFacts();
    RouteByPageName("owner", SidebarPage("owner", developerChoice));
  }

  /** The developer lands on the page picked in the sidebar. */
  lemma DeveloperRouted(developerChoice: bool)
    ensures Route("developer", SidebarPage("developer", developerChoice))
            == if developerChoice then ReportsView else DeveloperView
  {
    DeveloperPageFacts();
    ReportsPageNotOwner();
    ReportsPageNotDeveloper();
    ReportsPageItself();
    RouteByPageName("developer", SidebarPage("developer", developerChoice));
  }

  /** A role the application does not know lands on the welcome page. */
  lemma UnknownRoleWelcomed(role: string, developerChoice: bool)
    requires role != "admin" && role != "inspector" && role != "builder" && role != "owner" && role != "developer"
    ensures Route(role, SidebarPage(role, developerChoice)) == WelcomeView
  {
    ShortNoContains("Dashboard", "Owner Dashboard");
    ShortNoContains("Dashboard", "Developer Dashboard");
    ShortNoContains("Dashboard", "Inspection Reports");
  }

  // ---------------------------------------------------------------------------
  // Demo users
  // ---------------------------------------------------------------------------

  datatype DemoUser = DemoUser(username: string, password: string, role: string, firstName: string, lastName: string)

  const DemoUsers: seq<DemoUser> := [
    DemoUser("admin", "admin123", "admin", "System", "Administrator"),
    DemoUser("inspector", "test123", "inspector", "John", "Smith"),
    DemoUser("developer", "test123", "developer", "Mike", "Chen"),
    DemoUser("builder", "test123", "builder", "David", "Wilson")]

  /** A users-table row as the seeding writes it; the salted hash is left out. */
  datatype StoredUser = StoredUser(username: string, email: string, role: string, isActive: bool,
                                   firstName: string, lastName: string)

  function StoredOf(d: DemoUser): StoredUser {
    StoredUser(d.username, d.username + "@test.com", d.role, true, d.firstName, d.lastName)
  }

  predicate Taken(users: seq<StoredUser>, username: string) {
    exists k :: 0 <= k < |users| && users[k].username == username
  }

  /** The table after the demo users are offered in order, each skipped when its
      username is already there. */
  function Seeded(users: seq<StoredUser>, demo: seq<DemoUser>): seq<StoredUser>
    decreases |demo|
  {
    if demo == [] then users
    else Seeded(if Taken(users, demo[0].username) then users else users + [StoredOf(demo[0])], demo[1..])
  }

  /** The users table. */
  class UsersTable {
    var users: seq<StoredUser>

    constructor (initial: seq<StoredUser>)
      ensures users == initial
    {
      users := initial;
    }

    /** `ensure_demo_users_exist`: nothing without a database, otherwise each demo
        user whose username is free is added. */
    method EnsureDemoUsersExist(databaseAvailable: bool)
      modifies this
      ensures !databaseAvailable ==> users == old(users)
      ensures databaseAvailable ==> users == Seeded(old(users), DemoUsers)
    {
      if !databaseAvailable {
        return;
      }
      for i := 0 to |DemoUsers|
        invariant Seeded(users, DemoUsers[i..]) == Seeded(old(users), DemoUsers)
      {
        assert DemoUsers[i..][1..] == DemoUsers[i + 1..];
        var d := DemoUsers[i];
        if !Taken(users, d.username) {
          users := users + [StoredOf(d)];
        }
      }
    }
  }

  predicate UniqueNames(users: seq<StoredUser>) {
    forall i, j :: 0 <= i < j < |users| ==> users[i].username != users[j].username
  }

  /** Seeding keeps every existing row, never repeats a username, and leaves every demo
      username present. */
  lemma {:induction false} SeededFacts(users: seq<StoredUser>, demo: seq<DemoUser>)
    ensures |Seeded(users, demo)| >= |users| && Seeded(users, demo)[..|users|] == users
    ensures UniqueNames(users) ==> UniqueNames(Seeded(users, demo))
    ensures forall k :: 0 <= k < |demo| ==> Taken(Seeded(users, demo), demo[k].username)
    decreases |demo|
  {
    if demo != [] {
      var next := if Taken(users, demo[0].username) then users else users + [StoredOf(demo[0])];
      SeededFacts(next, demo[1..]);
      assert next[..|users|] == users;
      var s := Seeded(users, demo);
      assert s == Seeded(next, demo[1..]);
      assert s[..|users|] == s[..|next|][..|users|];
      forall k | 0 <= k < |demo| ensures Taken(s, demo[k].username) {
        if k == 0 {
          var j :| 0 <= j < |next| && next[j].username == demo[0].username;
          assert s[j] == next[j];
        } else {
          assert demo[k] == demo[1..][k - 1];
        }
      }
    }
  }
}
