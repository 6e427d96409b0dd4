/** `get_current_admin`: the bearer token either is the fixed test token,
    which yields a built-in admin without reading the table, or is taken as
    a username, looked up in `users`, and accepted only for an admin. Every
    refusal is a 401 "Invalid credentials". The table is only read. */
module Auth {
  import opened Results
  import opened Models
  import opened Store

  const AdminToken := "admin_token"
  const InvalidCredentials := Http(401, "Invalid credentials")

  /** `models.User(username="admin", is_admin=True)`: a transient object,
      never inserted, so it has no id, password or usage count. */
  const SentinelAdmin := User(None, "admin", None, Some(true), None, None)

  /** `.filter(User.username == name).first()` over the rows under `ids`,
      visited in the order of `ids`. */
  function FirstWithUsername(users: map<int, User>, ids: seq<int>, name: string): (r: Option<User>)
    requires forall i :: 0 <= i < |ids| ==> ids[i] in users
    ensures r.Some? ==> r.value.username == name
    ensures r.Some? ==>
      exists i :: (0 <= i < |ids| && users[ids[i]] == r.value
                   && forall j :: 0 <= j < i ==> users[ids[j]].username != name)
    ensures r.None? <==> forall i :: 0 <= i < |ids| ==> users[ids[i]].username != name
    decreases |ids|
  {
    if ids == [] then None
    else if users[ids[0]].username == name then Some(users[ids[0]])
    else FirstWithUsername(users, ids[1..], name)
  }

  /** The first user in scan order whose username is `name`, if any. */
  function FindByUsername(users: map<int, User>, name: string): (r: Option<User>)
    ensures r.Some? ==> r.value.username == name && exists k :: k in users && users[k] == r.value
    ensures r.None? <==> forall k :: k in users ==> users[k].username != name
  {
    var ids := ScanOrder(users.Keys);
    assert forall k :: k in users ==> k in ids;
    FirstWithUsername(users, ids, name)
  }

  /** `get_current_admin(token, db)`. */
  function GetCurrentAdmin(token: string, users: map<int, User>): (r: Result<User>)
    // the test token short-cuts the lookup
    ensures token == AdminToken ==> r == Ok(SentinelAdmin)
    // whatever is accepted is an admin, and every refusal is the same 401
    ensures r.Ok? ==> IsAdmin(r.value)
    ensures r.Err? ==> r.error == InvalidCredentials
    // any other token is a username: an accepted user is a stored row with that name
    ensures token != AdminToken && r.Ok? ==>
      r.value.username == token && exists k :: k in users && users[k] == r.value
    ensures token != AdminToken && (forall k :: k in users ==> users[k].username != token) ==>
      r == Err(InvalidCredentials)
  {
    if token == AdminToken then Ok(SentinelAdmin)
    else
      match FindByUsername(users, token)
      case None => Err(InvalidCredentials)
      case Some(user) => if !IsAdmin(user) then Err(InvalidCredentials) else Ok(user)
  }

  /** With usernames unique, the lookup is determined by the table: a token
      naming a stored admin yields exactly that row, and one naming a stored
      non-admin is refused with 401, not 403. */
  lemma StoredUserDecides(token: string, users: map<int, User>, k: int)
    requires UniqueUsernames(users) && token != AdminToken
    requires k in users && users[k].username == token
    ensures IsAdmin(users[k]) ==> GetCurrentAdmin(token, users) == Ok(users[k])
    ensures !IsAdmin(users[k]) ==> GetCurrentAdmin(token, users) == Err(InvalidCredentials)
  {
    var found := FindByUsername(users, token);
    var j :| j in users && users[j] == found.value;
    assert j == k;
  }

  /** A token other than the test token is accepted exactly when some stored
      admin has it as username. */
  lemma AcceptedIffStoredAdmin(token: string, users: map<int, User>)
    requires UniqueUsernames(users) && token != AdminToken
    ensures GetCurrentAdmin(token, users).Ok? <==>
      exists k :: k in users && users[k].username == token && IsAdmin(users[k])
  {
    if exists k :: k in users && users[k].username == token {
      var k :| k in users && users[k].username == token;
      StoredUserDecides(token, users, k);
    }
  }
}
