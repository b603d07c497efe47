/** The administrator's page: the user form's validation, the creation of a user with
    its name fallbacks, the user-list filter and the system settings file. */
module Admin {
  import opened Wrappers
  import opened Strings
  import opened Seqs

  // ---------------------------------------------------------------------------
  // User form
  // ---------------------------------------------------------------------------

  datatype Mode = Create | Edit

  /** The password errors: in create mode exactly one of missing, too short and
      mismatched, checked in that order; in edit mode the same checks on a password
      that was entered, and none otherwise. */
  function PasswordErrors(mode: Mode, password: string, confirm: string): (r: seq<string>)
    ensures |r| <= 1
    ensures mode == Edit && password == [] ==> r == []
    ensures mode == Create && password == [] ==> r == ["Password is required for new users"]
    ensures password != [] && |password| < 6 ==> |r| == 1
    ensures password != [] && |password| >= 6 ==> (r == [] <==> password == confirm)
  {
    match mode
    case Create =>
      if password == [] then ["Password is required for new users"]
      else if |password| < 6 then ["Password must be at least 6 characters"]
      else if password != confirm then ["Passwords do not match"]
      else []
    case Edit =>
      if password == [] then []
      else if |password| < 6 then ["New password must be at least 6 characters"]
      else if password != confirm then ["Passwords do not match"]
      else []
  }

  /** Every error the form shows, in order: username, email, then the password error. */
  function UserFormErrors(mode: Mode, username: string, email: string, password: string, confirm: string): (r: seq<string>)
    ensures r == [] <==> username != [] && email != [] && PasswordErrors(mode, password, confirm) == []
    ensures "Username is required" in r <==> username == []
    ensures "Email is required" in r <==> email == []
  {
    (if username == [] then ["Username is required"] else [])
    + (if email == [] then ["Email is required"] else [])
    + PasswordErrors(mode, password, confirm)
  }

  /** What submitting the form does. */
  datatype Submission = ShowErrors(errors: seq<string>) | SaveUser(mode: Mode, username: string, email: string, password: Option<string>)

  /** Saving happens exactly when there is no error; an edit with no password entered
      keeps the existing one. */
  function SubmitUserForm(mode: Mode, username: string, email: string, password: string, confirm: string): (r: Submission)
    ensures r.SaveUser? <==> UserFormErrors(mode, username, email, password, confirm) == []
    ensures r.ShowErrors? ==> r.errors == UserFormErrors(mode, username, email, password, confirm)
    ensures r.SaveUser? ==> r.mode == mode && r.username == username && r.email == email
    ensures r.SaveUser? ==> (r.password.None? <==> mode == Edit && password == [])
    ensures r.SaveUser? && r.password.Some? ==> r.password.value == password
  {
    var errors := UserFormErrors(mode, username, email, password, confirm);
    if errors != [] then ShowErrors(errors)
    else SaveUser(mode, username, email, if mode == Edit && password == [] then None else Some(password))
  }

  /** A new user is saved only with a password of at least six characters, confirmed. */
  lemma CreatedUsersHaveGoodPasswords(username: string, email: string, password: string, confirm: string)
    requires SubmitUserForm(Create, username, email, password, confirm).SaveUser?
    ensures |password| >= 6 && password == confirm && username != [] && email != []
  {
  }

  // ---------------------------------------------------------------------------
  // Creating a user
  // ---------------------------------------------------------------------------

  datatype DbType = Postgres | Sqlite

  /** A stored user: PostgreSQL keeps a full name, SQLite a first and last name. */
  datatype UserRecord = UserRecord(username: string, email: string, role: string, isActive: bool,
                                   fullName: Option<string>, firstName: Option<string>, lastName: Option<string>)

  /** The PostgreSQL full name: "first last" trimmed, or the username when that is empty. */
  function FullName(firstName: string, lastName: string, username: string): (r: string)
    ensures Trim(firstName + " " + lastName) != [] ==> r == Trim(firstName + " " + lastName)
    ensures Trim(firstName + " " + lastName) == [] ==> r == username
  {
    var joined := Trim(firstName + " " + lastName);
    if joined != [] then joined else username
  }

  /** The record written for a new user. */
  function NewRecord(db: DbType, username: string, email: string, role: string, isActive: bool,
                     firstName: string, lastName: string): (r: UserRecord)
    ensures r.username == username && r.email == email && r.role == role && r.isActive == isActive
    ensures db == Postgres ==> r.fullName == Some(FullName(firstName, lastName, username)) && r.firstName.None? && r.lastName.None?
    ensures db == Sqlite ==> r.fullName.None?
    ensures db == Sqlite ==> r.firstName == Some(if firstName != [] then firstName else username)
    ensures db == Sqlite ==> r.lastName == Some(lastName)
  {
    match db
    case Postgres => UserRecord(username, email, role, isActive, Some(FullName(firstName, lastName, username)), None, None)
    case Sqlite => UserRecord(username, email, role, isActive, None,
                              Some(if firstName != [] then firstName else username),
                              Some(if lastName != [] then lastName else ""))
  }

  /** A user with a username always has a name to show. */
  lemma NamedAfterFallback(db: DbType, username: string, email: string, role: string, isActive: bool,
                           firstName: string, lastName: string)
    requires username != []
    ensures db == Postgres ==> NewRecord(db, username, email, role, isActive, firstName, lastName).fullName.value != []
    ensures db == Sqlite ==> NewRecord(db, username, email, role, isActive, firstName, lastName).firstName.value != []
  {
  }

  predicate UsernameTaken(users: seq<UserRecord>, username: string) {
    exists k :: 0 <= k < |users| && users[k].username == username
  }

  /** No two stored users share a username. */
  predicate UniqueUsernames(users: seq<UserRecord>) {
    forall i, j :: 0 <= i < j < |users| ==> users[i].username != users[j].username
  }

  /** The users table. */
  class UserStore {
    var users: seq<UserRecord>

    constructor ()
      ensures users == []
    {
      users := [];
    }

    /** `_save_user` in create mode: an existing username is refused and nothing is
        written; otherwise the new record is added. */
    method CreateUser(db: DbType, username: string, email: string, role: string, isActive: bool,
                      firstName: string, lastName: string) returns (ok: bool)
      modifies this
      ensures ok <==> !UsernameTaken(old(users), username)
      ensures !ok ==> users == old(users)
      ensures ok ==> users == old(users) + [NewRecord(db, username, email, role, isActive, firstName, lastName)]
      ensures UniqueUsernames(old(users)) ==> UniqueUsernames(users)
    {
      if UsernameTaken(users, username) {
        return false;
      }
      users := users + [NewRecord(db, username, email, role, isActive, firstName, lastName)];
      ok := true;
    }
  }

  // ---------------------------------------------------------------------------
  // User list filter
  // ---------------------------------------------------------------------------

  /** A listed user: the name may be missing, which never matches a search. */
  datatype UserRow = UserRow(username: string, name: Option<string>, email: string, role: string)

  /** Case-insensitive containment of the search term. */
  predicate ContainsIgnoringCase(text: string, term: string) {
    Contains(Lower(text), Lower(term))
  }

  /** The row passes the role filter (unless it is "All") and, when a search term is
      given, the term is in its username, name or email. */
  predicate ShownUser(u: UserRow, roleFilter: string, searchTerm: string) {
    (roleFilter == "All" || u.role == roleFilter)
    && (searchTerm == [] || ContainsIgnoringCase(u.username, searchTerm)
        || (u.name.Some? && ContainsIgnoringCase(u.name.value, searchTerm))
        || ContainsIgnoringCase(u.email, searchTerm))
  }

  /** The users shown, in list order: the same rows as the boolean mask over the list. */
  function FilterUsers(users: seq<UserRow>, roleFilter: string, searchTerm: string): (r: seq<UserRow>)
    ensures |r| <= |users|
    ensures forall k :: 0 <= k < |r| ==> r[k] in users && ShownUser(r[k], roleFilter, searchTerm)
    ensures forall u :: u in users && ShownUser(u, roleFilter, searchTerm) ==> u in r
    ensures r == Filter(users, (u: UserRow) => ShownUser(u, roleFilter, searchTerm))
    decreases |users|
  {
    if users == [] then []
    else
      var init := FilterUsers(users[..|users| - 1], roleFilter, searchTerm);
      var last := users[|users| - 1];
      assert forall u :: u in users ==> u in users[..|users| - 1] || u == last;
      assert users == users[..|users| - 1] + [last];
      FilterAppend(users[..|users| - 1], [last], (u: UserRow) => ShownUser(u, roleFilter, searchTerm));
      init + (if ShownUser(last, roleFilter, searchTerm) then [last] else [])
  }

  /** The filter keeps the list order: the users shown are a subsequence of the list. */
  lemma FilterUsersKeepsOrder(users: seq<UserRow>, roleFilter: string, searchTerm: string)
    ensures IsSubsequence(FilterUsers(users, roleFilter, searchTerm), users)
  {
    FilterIsSubsequence(users, (u: UserRow) => ShownUser(u, roleFilter, searchTerm));
  }

  /** With "All" and no search term every user is shown. */
  lemma NoFilterShowsAll(users: seq<UserRow>)
    ensures FilterUsers(users, "All", []) == users
  {
    FilterAllPass(users, (u: UserRow) => ShownUser(u, "All", []));
  }

  // ---------------------------------------------------------------------------
  // System settings
  // ---------------------------------------------------------------------------

  datatype SettingValue = Text(s: string) | Number(n: int) | Flag(b: bool)

  const DefaultSettings: map<string, SettingValue> := map[
    "system_name" := Text("Building Inspection System V3"),
    "default_urgency_threshold" := Number(7),
    "max_file_size_mb" := Number(10),
    "auto_work_order_creation" := Flag(true)]

  /** `_load_system_settings`: the file's settings when it exists and reads as JSON,
      the defaults otherwise. */
  function LoadSystemSettings(fileExists: bool, parsed: Option<map<string, SettingValue>>): (r: map<string, SettingValue>)
    ensures fileExists && parsed.Some? ==> r == parsed.value
    ensures !fileExists || parsed.None? ==> r == DefaultSettings
  {
    if fileExists && parsed.Some? then parsed.value else DefaultSettings
  }

  /** Saving the defaults and loading them back gives the defaults. */
  lemma ResetRoundTrip()
    ensures LoadSystemSettings(true, Some(DefaultSettings)) == DefaultSettings
    ensures LoadSystemSettings(false, None) == DefaultSettings
    ensures DefaultSettings["max_file_size_mb"] == Number(10)
  {
  }
}
