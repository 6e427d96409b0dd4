/** The three ORM records (plans, users, permissions), the column defaults
    applied when a user row is inserted, and the key and uniqueness
    constraints of the tables, stated over id-keyed tables. */
module Models {
  import opened Results

  /** A row of `plans`. `apiPermissions` is the comma-separated list of
      service names the plan allows. */
  datatype Plan = Plan(id: int, name: string, description: string, apiPermissions: string, usageLimit: int)

  /** A `users` object. A column left unset on an object that was never
      inserted is None: the defaults are applied by the INSERT, not by the
      constructor. */
  datatype User = User(
    id: Option<int>,
    username: string,
    hashedPassword: Option<string>,
    isAdmin: Option<bool>,
    subscriptionPlanId: Option<int>,
    usageCount: Option<int>)

  /** A row of `permissions`; `name` is NOT NULL, `description` nullable. */
  datatype Permission = Permission(id: int, name: string, description: Option<string>)

  /** The row stored when a user object is inserted under primary key `id`:
      an unset `is_admin` becomes false and an unset `usage_count` becomes 0. */
  function InsertUser(u: User, id: int): (row: User)
    ensures row.id == Some(id)
    ensures row.username == u.username && row.hashedPassword == u.hashedPassword
    ensures row.subscriptionPlanId == u.subscriptionPlanId
    ensures u.isAdmin.None? ==> row.isAdmin == Some(false)
    ensures u.isAdmin.Some? ==> row.isAdmin == u.isAdmin
    ensures u.usageCount.None? ==> row.usageCount == Some(0)
    ensures u.usageCount.Some? ==> row.usageCount == u.usageCount
  {
    u.(id := Some(id),
       isAdmin := Some(u.isAdmin.GetOr(false)),
       usageCount := Some(u.usageCount.GetOr(0)))
  }

  /** The truth value of `user.is_admin`: an unset (NULL) flag is false. */
  predicate IsAdmin(u: User): (admin: bool)
    ensures u.isAdmin.None? ==> !admin
    ensures u.isAdmin.Some? ==> (admin <==> u.isAdmin.value)
  {
    u.isAdmin == Some(true)
  }

  /** `plans.id` is the primary key: every row is stored under its own id,
      so no row is stored under two keys. */
  ghost predicate PlansKeyedById(plans: map<int, Plan>): (b: bool)
    ensures b ==> forall j, k :: j in plans && k in plans && plans[j] == plans[k] ==> j == k
  {
    forall k :: k in plans ==> plans[k].id == k
  }

  /** `permissions.id` is the primary key. */
  ghost predicate PermissionsKeyedById(permissions: map<int, Permission>): (b: bool)
    ensures b ==> forall j, k :: j in permissions && k in permissions && permissions[j] == permissions[k] ==> j == k
  {
    forall k :: k in permissions ==> permissions[k].id == k
  }

  /** `users.id` is the primary key; a stored user always has its id set. */
  ghost predicate UsersKeyedById(users: map<int, User>): (b: bool)
    ensures b ==> forall k :: k in users ==> users[k].id.Some?
    ensures b ==> forall j, k :: j in users && k in users && users[j] == users[k] ==> j == k
  {
    forall k :: k in users ==> users[k].id == Some(k)
  }

  /** `users.username` is UNIQUE: a username picks out a single key. */
  ghost predicate UniqueUsernames(users: map<int, User>): (unique: bool)
    ensures unique ==> forall k :: k in users ==>
      (set j | j in users && users[j].username == users[k].username) == {k}
  {
    UsernameKeys(users);
    forall a, b :: a in users && b in users && users[a].username == users[b].username ==> a == b
  }

  /** The keys carrying one username, under the UNIQUE constraint. */
  lemma UsernameKeys(users: map<int, User>)
    ensures (forall a, b :: a in users && b in users && users[a].username == users[b].username ==> a == b) ==>
      forall k :: k in users ==> (set j | j in users && users[j].username == users[k].username) == {k}
  {
    if forall a, b :: a in users && b in users && users[a].username == users[b].username ==> a == b {
      forall k | k in users
        ensures (set j | j in users && users[j].username == users[k].username) == {k}
      {
        var keys := set j | j in users && users[j].username == users[k].username;
        assert k in keys;
        assert forall j :: j in keys ==> j == k;
      }
    }
  }

  /** `permissions.name` is UNIQUE: a name picks out a single key. */
  ghost predicate UniquePermissionNames(permissions: map<int, Permission>): (unique: bool)
    ensures unique ==> forall k :: k in permissions ==>
      (set j | j in permissions && permissions[j].name == permissions[k].name) == {k}
  {
    PermissionNameKeys(permissions);
    forall a, b :: a in permissions && b in permissions && permissions[a].name == permissions[b].name ==> a == b
  }

  /** The keys carrying one permission name, under the UNIQUE constraint. */
  lemma PermissionNameKeys(permissions: map<int, Permission>)
    ensures (forall a, b :: a in permissions && b in permissions && permissions[a].name == permissions[b].name ==> a == b) ==>
      forall k :: k in permissions ==> (set j | j in permissions && permissions[j].name == permissions[k].name) == {k}
  {
    if forall a, b :: a in permissions && b in permissions && permissions[a].name == permissions[b].name ==> a == b {
      forall k | k in permissions
        ensures (set j | j in permissions && permissions[j].name == permissions[k].name) == {k}
      {
        var keys := set j | j in permissions && permissions[j].name == permissions[k].name;
        assert k in keys;
        assert forall j :: j in keys ==> j == k;
      }
    }
  }
}
