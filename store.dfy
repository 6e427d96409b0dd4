/** The database session the application works through: the `plans`,
    `permissions` and `users` tables as maps from primary key to row, the
    next key each autoincrementing table hands out, and the order in which a
    table scan visits the rows (ascending primary key). */
module Store {
  import opened Results
  import opened Models

  /** A set that is not empty has a member. */
  lemma HasMember(s: set<int>)
    requires s != {}
    ensures exists y :: y in s
  {
    if forall y :: y !in s {
      assert false;
    }
  }

  /** A finite non-empty set of keys has a least element. */
  lemma {:induction false} MinExists(s: set<int>)
    requires s != {}
    ensures exists m :: m in s && forall x :: x in s ==> m <= x
    decreases |s|
  {
    HasMember(s);
    var y :| y in s;
    var rest := s - {y};
    var low := y;
    if rest != {} {
      MinExists(rest);
      var m :| m in rest && forall x :: x in rest ==> m <= x;
      low := if y < m then y else m;
    }
    forall x | x in s ensures low <= x {
      if x != y { assert x in rest; }
    }
    assert low in s;
  }

  /** The smallest key of a non-empty key set. */
  function SetMin(s: set<int>): (m: int)
    requires s != {}
    ensures m in s && forall x :: x in s ==> m <= x
  {
    MinExists(s);
    var m :| m in s && forall x :: x in s ==> m <= x;
    m
  }

  /** Putting the least key in front of an ascending listing of the other
      keys gives an ascending listing of all of them. */
  lemma ScanStep(ids: set<int>, m: int, rest: seq<int>)
    requires m in ids && forall x :: x in ids ==> m <= x
    requires |rest| == |ids - {m}|
    requires forall i :: 0 <= i < |rest| ==> rest[i] in ids - {m}
    requires forall x :: x in ids - {m} ==> x in rest
    requires forall i, j :: 0 <= i < j < |rest| ==> rest[i] < rest[j]
    ensures |[m] + rest| == |ids|
    ensures forall i :: 0 <= i < |[m] + rest| ==> ([m] + rest)[i] in ids
    ensures forall x :: x in ids ==> x in [m] + rest
    ensures forall i, j :: 0 <= i < j < |[m] + rest| ==> ([m] + rest)[i] < ([m] + rest)[j]
  {
    var r := [m] + rest;
    assert forall i :: 0 < i < |r| ==> r[i] == rest[i - 1];
    assert forall i :: 0 <= i < |rest| ==> m < rest[i];
  }

  /** The keys of a table in scan order: every key exactly once, ascending. */
  function ScanOrder(ids: set<int>): (r: seq<int>)
    ensures |r| == |ids|
    ensures forall i :: 0 <= i < |r| ==> r[i] in ids
    ensures forall x :: x in ids ==> x in r
    ensures forall i, j :: 0 <= i < j < |r| ==> r[i] < r[j]
    decreases |ids|
  {
    if ids == {} then []
    else
      var m := SetMin(ids);
      var rest := ScanOrder(ids - {m});
      ScanStep(ids, m, rest);
      [m] + rest
  }

  class Session {
    var plans: map<int, Plan>
    var permissions: map<int, Permission>
    var users: map<int, User>
    var nextPlanId: int
    var nextPermissionId: int

    /** The table constraints the database enforces, and the autoincrement
        counters lying above every key in use. */
    ghost predicate Valid(): (valid: bool)
      reads this
      ensures valid ==> nextPlanId !in plans && nextPermissionId !in permissions
    {
      && PlansKeyedById(plans)
      && PermissionsKeyedById(permissions)
      && UsersKeyedById(users)
      && UniqueUsernames(users)
      && UniquePermissionNames(permissions)
      && (forall k :: k in plans ==> k < nextPlanId)
      && (forall k :: k in permissions ==> k < nextPermissionId)
    }

    /** A session over an existing `users` table and empty `plans` and
        `permissions` tables. */
    constructor (users: map<int, User>)
      requires UsersKeyedById(users) && UniqueUsernames(users)
      ensures Valid()
      ensures this.users == users && plans == map[] && permissions == map[]
    {
      this.users := users;
      plans := map[];
      permissions := map[];
      nextPlanId := 1;
      nextPermissionId := 1;
    }
  }
}
