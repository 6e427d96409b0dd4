/** Administrative CRUD over the `plans` and `permissions` tables. Plans
    raise 404 "Plan not found" for a missing id; permissions answer None.
    A partial update is the list of fields the request actually set
    (`dict(exclude_unset=True)`), applied one `setattr` at a time. */
module Crud {
  import opened Results
  import opened Models
  import opened Store

  const PlanNotFound := Http(404, "Plan not found")
  const PlanDeleted := "Plan deleted"
  const PermissionNameNotNull := Integrity("NOT NULL permissions.name")
  const PermissionNameUnique := Integrity("UNIQUE permissions.name")

  // ---------------------------------------------------------------- plans

  /** The body of a plan creation request. */
  datatype PlanCreate = PlanCreate(name: string, description: string, apiPermissions: string, usageLimit: int)

  /** The body of a plan update request; None marks a field left unset. */
  datatype PlanUpdate = PlanUpdate(
    name: Option<string>, description: Option<string>, apiPermissions: Option<string>, usageLimit: Option<int>)

  /** One `(key, value)` item of the update's set fields. */
  datatype PlanAttr =
    | PlanName(name: string)
    | PlanDescription(description: string)
    | PlanApiPermissions(apiPermissions: string)
    | PlanUsageLimit(usageLimit: int)

  /** `plan.dict(exclude_unset=True).items()`, in field declaration order. */
  function PlanItems(u: PlanUpdate): (items: seq<PlanAttr>)
    ensures |items| <= 4
    ensures u == PlanUpdate(None, None, None, None) ==> items == []
  {
    (if u.name.Some? then [PlanName(u.name.value)] else [])
    + (if u.description.Some? then [PlanDescription(u.description.value)] else [])
    + (if u.apiPermissions.Some? then [PlanApiPermissions(u.apiPermissions.value)] else [])
    + (if u.usageLimit.Some? then [PlanUsageLimit(u.usageLimit.value)] else [])
  }

  /** `setattr(db_plan, key, value)`. */
  function SetPlanAttr(p: Plan, a: PlanAttr): (q: Plan)
    ensures q.id == p.id
    ensures q.name == (if a.PlanName? then a.name else p.name)
    ensures q.description == (if a.PlanDescription? then a.description else p.description)
    ensures q.apiPermissions == (if a.PlanApiPermissions? then a.apiPermissions else p.apiPermissions)
    ensures q.usageLimit == (if a.PlanUsageLimit? then a.usageLimit else p.usageLimit)
  {
    match a
    case PlanName(v) => p.(name := v)
    case PlanDescription(v) => p.(description := v)
    case PlanApiPermissions(v) => p.(apiPermissions := v)
    case PlanUsageLimit(v) => p.(usageLimit := v)
  }

  /** The plan after the `setattr` calls for `items`, first to last. */
  function SetPlanAttrs(p: Plan, items: seq<PlanAttr>): (q: Plan)
    ensures q.id == p.id
    decreases |items|
  {
    if items == [] then p else SetPlanAttr(SetPlanAttrs(p, items[..|items| - 1]), items[|items| - 1])
  }

  /** An update overwrites exactly the fields it sets: each set field takes
      the new value, every unset field and the id keep the stored ones. */
  lemma {:induction false} PlanUpdateFields(p: Plan, u: PlanUpdate)
    ensures var q := SetPlanAttrs(p, PlanItems(u));
      && q.id == p.id
      && q.name == u.name.GetOr(p.name)
      && q.description == u.description.GetOr(p.description)
      && q.apiPermissions == u.apiPermissions.GetOr(p.apiPermissions)
      && q.usageLimit == u.usageLimit.GetOr(p.usageLimit)
  {
    var a := if u.name.Some? then [PlanName(u.name.value)] else [];
    var b := if u.description.Some? then [PlanDescription(u.description.value)] else [];
    var c := if u.apiPermissions.Some? then [PlanApiPermissions(u.apiPermissions.value)] else [];
    var d := if u.usageLimit.Some? then [PlanUsageLimit(u.usageLimit.value)] else [];
    assert PlanItems(u) == a + b + c + d;
    SetPlanAttrsAppend(p, a, b);
    SetPlanAttrsAppend(p, a + b, c);
    SetPlanAttrsAppend(p, a + b + c, d);
    assert SetPlanAttrs(p, []) == p;
  }

  /** Applying `xs + ys` is applying `xs`, then `ys`. */
  lemma {:induction false} SetPlanAttrsAppend(p: Plan, xs: seq<PlanAttr>, ys: seq<PlanAttr>)
    requires |ys| <= 1
    ensures SetPlanAttrs(p, xs + ys) == SetPlanAttrs(SetPlanAttrs(p, xs), ys)
  {
    if ys != [] {
      assert (xs + ys)[..|xs + ys| - 1] == xs;
      assert SetPlanAttrs(SetPlanAttrs(p, xs), ys) == SetPlanAttr(SetPlanAttrs(SetPlanAttrs(p, xs), []), ys[0]);
    } else {
      assert xs + ys == xs;
    }
  }

  /** An update that sets no field leaves the plan as it was. */
  lemma EmptyPlanUpdateIsIdentity(p: Plan)
    ensures SetPlanAttrs(p, PlanItems(PlanUpdate(None, None, None, None))) == p
  {
  }

  /** Applying the same update twice is applying it once. */
  lemma PlanUpdateIdempotent(p: Plan, u: PlanUpdate)
    ensures SetPlanAttrs(SetPlanAttrs(p, PlanItems(u)), PlanItems(u)) == SetPlanAttrs(p, PlanItems(u))
  {
    PlanUpdateFields(p, u);
    PlanUpdateFields(SetPlanAttrs(p, PlanItems(u)), u);
  }

  /** `create_plan`: a new row under a fresh id, its fields the request's. */
  method CreatePlan(db: Session, plan: PlanCreate) returns (r: Plan)
    requires db.Valid()
    modifies db`plans, db`nextPlanId
    ensures db.Valid()
    ensures r.id !in old(db.plans)
    ensures r.name == plan.name && r.description == plan.description
    ensures r.apiPermissions == plan.apiPermissions && r.usageLimit == plan.usageLimit
    ensures db.plans == old(db.plans)[r.id := r]
  {
    r := Plan(db.nextPlanId, plan.name, plan.description, plan.apiPermissions, plan.usageLimit);
    db.plans := db.plans[r.id := r];
    db.nextPlanId := db.nextPlanId + 1;
  }

  /** `update_plan`: 404 and no change for a missing id; otherwise the
      stored plan with the request's set fields written over it. */
  method UpdatePlan(db: Session, planId: int, plan: PlanUpdate) returns (r: Result<Plan>)
    requires db.Valid()
    modifies db`plans
    ensures db.Valid()
    ensures planId !in old(db.plans) ==> r == Err(PlanNotFound) && db.plans == old(db.plans)
    ensures planId in old(db.plans) ==>
      && r == Ok(SetPlanAttrs(old(db.plans)[planId], PlanItems(plan)))
      && db.plans == old(db.plans)[planId := r.value]
  {
    if planId !in db.plans {
      return Err(PlanNotFound);
    }
    var stored := db.plans[planId];
    var dbPlan := stored;
    var items := PlanItems(plan);
    for i := 0 to |items|
      invariant dbPlan == SetPlanAttrs(stored, items[..i])
    {
      assert items[..i + 1][..i] == items[..i];
      dbPlan := SetPlanAttr(dbPlan, items[i]);
    }
    assert items[..|items|] == items;
    assert dbPlan.id == planId;
    db.plans := db.plans[planId := dbPlan];
    r := Ok(dbPlan);
  }

  /** `delete_plan`: 404 and no change for a missing id; otherwise that one
      row goes and the detail "Plan deleted" comes back. */
  method DeletePlan(db: Session, planId: int) returns (r: Result<string>)
    requires db.Valid()
    modifies db`plans
    ensures db.Valid()
    ensures planId !in old(db.plans) ==> r == Err(PlanNotFound) && db.plans == old(db.plans)
    ensures planId in old(db.plans) ==> r == Ok(PlanDeleted) && db.plans == old(db.plans) - {planId}
  {
    if planId !in db.plans {
      return Err(PlanNotFound);
    }
    db.plans := db.plans - {planId};
    r := Ok(PlanDeleted);
  }

  // ---------------------------------------------------------- permissions

  /** The body of a permission creation request; None marks a field left out. */
  datatype PermissionCreate = PermissionCreate(name: Option<string>, description: Option<string>)

  /** The body of a permission update request; None marks a field left unset. */
  datatype PermissionUpdate = PermissionUpdate(name: Option<string>, description: Option<string>)

  datatype PermissionAttr =
    | PermissionName(name: string)
    | PermissionDescription(description: string)

  /** `permission.dict(exclude_unset=True).items()`. */
  function PermissionItems(u: PermissionUpdate): (items: seq<PermissionAttr>)
    ensures |items| <= 2
    ensures u == PermissionUpdate(None, None) ==> items == []
  {
    (if u.name.Some? then [PermissionName(u.name.value)] else [])
    + (if u.description.Some? then [PermissionDescription(u.description.value)] else [])
  }

  /** `setattr(db_permission, key, value)`. */
  function SetPermissionAttr(p: Permission, a: PermissionAttr): (q: Permission)
    ensures q.id == p.id
    ensures q.name == (if a.PermissionName? then a.name else p.name)
    ensures q.description == (if a.PermissionDescription? then Some(a.description) else p.description)
  {
    match a
    case PermissionName(v) => p.(name := v)
    case PermissionDescription(v) => p.(description := Some(v))
  }

  /** The permission after the `setattr` calls for `items`, first to last. */
  function SetPermissionAttrs(p: Permission, items: seq<PermissionAttr>): (q: Permission)
    ensures q.id == p.id
    decreases |items|
  {
    if items == [] then p
    else SetPermissionAttr(SetPermissionAttrs(p, items[..|items| - 1]), items[|items| - 1])
  }

  /** A permission update overwrites exactly the fields it sets. */
  lemma {:induction false} PermissionUpdateFields(p: Permission, u: PermissionUpdate)
    ensures var q := SetPermissionAttrs(p, PermissionItems(u));
      && q.id == p.id
      && q.name == u.name.GetOr(p.name)
      && q.description == (if u.description.Some? then u.description else p.description)
  {
    var a := if u.name.Some? then [PermissionName(u.name.value)] else [];
    var b := if u.description.Some? then [PermissionDescription(u.description.value)] else [];
    assert PermissionItems(u) == a + b;
    if b != [] {
      assert (a + b)[..|a + b| - 1] == a;
    } else {
      assert a + b == a;
    }
    assert SetPermissionAttrs(p, []) == p;
  }

  /** True when some row other than `id` already carries `name`. */
  predicate NameTaken(permissions: map<int, Permission>, name: string, id: int) {
    exists k :: k in permissions && k != id && permissions[k].name == name
  }

  /** Against a table that meets the UNIQUE constraint, storing a row named
      `name` under `id` breaks the constraint exactly when the name is taken
      by another row; this is the check the database makes at commit. */
  lemma NameTakenIffDuplicate(permissions: map<int, Permission>, name: string, id: int, description: Option<string>)
    requires UniquePermissionNames(permissions)
    ensures NameTaken(permissions, name, id) <==>
      !UniquePermissionNames(permissions[id := Permission(id, name, description)])
  {
    var stored := permissions[id := Permission(id, name, description)];
    if NameTaken(permissions, name, id) {
      var k :| k in permissions && k != id && permissions[k].name == name;
      assert k in stored && id in stored && stored[k].name == stored[id].name;
    }
  }

  /** `create_permission`: the NOT NULL and UNIQUE constraints on `name`
      reject the insert and leave the table as it was; otherwise a new row
      under a fresh id holds the request's fields. */
  method CreatePermission(db: Session, permission: PermissionCreate) returns (r: Result<Permission>)
    requires db.Valid()
    modifies db`permissions, db`nextPermissionId
    ensures db.Valid()
    ensures permission.name.None? ==> r == Err(PermissionNameNotNull) && db.permissions == old(db.permissions)
    ensures permission.name.Some? && NameTaken(old(db.permissions), permission.name.value, old(db.nextPermissionId)) ==>
      r == Err(PermissionNameUnique) && db.permissions == old(db.permissions)
    ensures r.Ok? ==>
      && r.value.id !in old(db.permissions)
      && permission.name == Some(r.value.name) && r.value.description == permission.description
      && db.permissions == old(db.permissions)[r.value.id := r.value]
    ensures r.Ok? <==> permission.name.Some? && !NameTaken(old(db.permissions), permission.name.value, old(db.nextPermissionId))
  {
    if permission.name.None? {
      return Err(PermissionNameNotNull);
    }
    var id := db.nextPermissionId;
    if NameTaken(db.permissions, permission.name.value, id) {
      return Err(PermissionNameUnique);
    }
    var p := Permission(id, permission.name.value, permission.description);
    db.permissions := db.permissions[id := p];
    db.nextPermissionId := id + 1;
    r := Ok(p);
  }

  /** The rows stored under `ids`, in the order of `ids`. */
  function RowsOf(rows: map<int, Permission>, ids: seq<int>): (r: seq<Permission>)
    requires forall i :: 0 <= i < |ids| ==> ids[i] in rows
    ensures |r| == |ids|
    ensures forall i :: 0 <= i < |ids| ==> r[i] == rows[ids[i]]
    decreases |ids|
  {
    if ids == [] then [] else [rows[ids[0]]] + RowsOf(rows, ids[1..])
  }

  /** The positions an OFFSET `skip` LIMIT `limit` query keeps of a scan. */
  function Window(ids: seq<int>, skip: nat, limit: nat): (r: seq<int>)
    ensures |r| == (if skip >= |ids| then 0 else if |ids| - skip < limit then |ids| - skip else limit)
    ensures forall i :: 0 <= i < |r| ==> skip + i < |ids| && r[i] == ids[skip + i]
  {
    if skip >= |ids| then []
    else if |ids| - skip < limit then ids[skip..]
    else ids[skip..skip + limit]
  }

  /** The rows an OFFSET `skip` LIMIT `limit` query returns: at most `limit`
      rows, those from position `skip` on in scan order. */
  function Page(rows: map<int, Permission>, skip: nat, limit: nat): (r: seq<Permission>)
    ensures |r| == (if skip >= |rows| then 0 else if |rows| - skip < limit then |rows| - skip else limit)
    ensures forall i :: 0 <= i < |r| ==>
      (skip + i < |rows| && r[i] == rows[ScanOrder(rows.Keys)[skip + i]])
  {
    var ids := ScanOrder(rows.Keys);
    assert |ids| == |rows|;
    var window := Window(ids, skip, limit);
    assert forall i :: 0 <= i < |window| ==> window[i] in rows;
    RowsOf(rows, window)
  }

  /** Every row of a page is a stored row, and a page lists them by
      ascending id, so no row appears twice. */
  lemma PageInIdOrder(rows: map<int, Permission>, skip: nat, limit: nat)
    requires PermissionsKeyedById(rows)
    ensures var r := Page(rows, skip, limit);
      forall i :: 0 <= i < |r| ==> r[i].id in rows && rows[r[i].id] == r[i]
    ensures var r := Page(rows, skip, limit);
      forall i, j :: 0 <= i < j < |r| ==> r[i].id < r[j].id
  {
    var r := Page(rows, skip, limit);
    var ids := ScanOrder(rows.Keys);
    assert forall i :: 0 <= i < |r| ==> r[i].id == ids[skip + i];
  }

  /** `get_permissions(skip, limit)`: one page of the table in scan order. */
  method GetPermissions(db: Session, skip: nat := 0, limit: nat := 100) returns (r: seq<Permission>)
    requires db.Valid()
    ensures r == Page(db.permissions, skip, limit)
  {
    r := Page(db.permissions, skip, limit);
  }

  /** `get_permission`: the row with that id, or None. */
  method GetPermission(db: Session, permissionId: int) returns (r: Option<Permission>)
    requires db.Valid()
    ensures r.Some? <==> permissionId in db.permissions
    ensures r.Some? ==> r.value.id == permissionId && db.permissions[permissionId] == r.value
  {
    r := if permissionId in db.permissions then Some(db.permissions[permissionId]) else None;
  }

  /** `update_permission`: None and no change for a missing id (no error);
      a rename onto a name another row carries is refused by the UNIQUE
      constraint with no change; otherwise the row with the set fields
      written over it. */
  method UpdatePermission(db: Session, permissionId: int, permission: PermissionUpdate)
    returns (r: Result<Option<Permission>>)
    requires db.Valid()
    modifies db`permissions
    ensures db.Valid()
    ensures permissionId !in old(db.permissions) ==> r == Ok(None) && db.permissions == old(db.permissions)
    ensures permissionId in old(db.permissions) ==>
      var q := SetPermissionAttrs(old(db.permissions)[permissionId], PermissionItems(permission));
      if NameTaken(old(db.permissions), q.name, permissionId)
      then r == Err(PermissionNameUnique) && db.permissions == old(db.permissions)
      else r == Ok(Some(q)) && db.permissions == old(db.permissions)[permissionId := q]
  {
    if permissionId !in db.permissions {
      return Ok(None);
    }
    var stored := db.permissions[permissionId];
    var dbPermission := stored;
    var items := PermissionItems(permission);
    for i := 0 to |items|
      invariant dbPermission == SetPermissionAttrs(stored, items[..i])
    {
      assert items[..i + 1][..i] == items[..i];
      dbPermission := SetPermissionAttr(dbPermission, items[i]);
    }
    assert items[..|items|] == items;
    if NameTaken(db.permissions, dbPermission.name, permissionId) {
      return Err(PermissionNameUnique);
    }
    db.permissions := db.permissions[permissionId := dbPermission];
    r := Ok(Some(dbPermission));
  }

  /** `delete_permission`: the removed row for a present id, None and no
      change for a missing one. */
  method DeletePermission(db: Session, permissionId: int) returns (r: Option<Permission>)
    requires db.Valid()
    modifies db`permissions
    ensures db.Valid()
    ensures permissionId !in old(db.permissions) ==> r == None && db.permissions == old(db.permissions)
    ensures permissionId in old(db.permissions) ==>
      r == Some(old(db.permissions)[permissionId]) && db.permissions == old(db.permissions) - {permissionId}
  {
    if permissionId !in db.permissions {
      return None;
    }
    r := Some(db.permissions[permissionId]);
    db.permissions := db.permissions - {permissionId};
  }
}
