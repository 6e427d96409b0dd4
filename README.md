# Subscription gateway: access check, usage accounting and admin CRUD

A Dafny model of the core of a small FastAPI/SQLAlchemy service that sells
subscription plans for named cloud services. A plan carries a
comma-separated list of allowed service names (`api_permissions`) and a
quota (`usage_limit`). A user points at a plan through
`subscription_plan_id` and keeps a `usage_count`.

- `Utils` covers `check_usage_limit`. It makes three checks in a fixed
  order, each with its own 403: the user has no plan; the counter has
  reached the quota; the service is not one of the plan's comma-separated
  tokens. A call that passes all three adds one to the counter. The module
  also models Python's `str.split(',')`, proved to be the inverse of
  `','.join`.
- `Crud` covers create, partial update and delete for plans, and create,
  list, get, partial update and delete for permissions. A missing plan id
  raises 404 "Plan not found". A missing permission id answers None and
  raises nothing.
- `Auth` covers `get_current_admin`. The token "admin_token" yields a
  built-in admin. Any other token is a username looked up in `users`. An
  unknown user and a non-admin user both get 401 "Invalid credentials".
- `Models` holds the records and the table constraints: primary keys,
  UNIQUE usernames, UNIQUE and NOT NULL permission names, and the column
  defaults applied when a user row is inserted.
- `Store.Session` is the database session. It holds the three tables as
  maps from primary key to row. Its `Valid()` invariant collects the table
  constraints, and every CRUD and accounting method preserves it.
- `Results` holds the error shapes. `Http(status, detail)` is an
  `HTTPException`. `Integrity` is a constraint violation raised at commit.
  `TypeMismatch` is a Python `TypeError`.

Modelling choices:
- Persistence calls (`add`, `delete`, `commit`, `refresh`) become updates
  of the session's maps.
- The row order of a query without ORDER BY is up to the database engine,
  and app/database.py is not part of this model. The model assumes the
  engine visits rows by ascending primary key (`Store.ScanOrder`). That
  assumed order drives `.first()` and OFFSET/LIMIT.
- The ORM user object passed to `check_usage_limit` is identified by its
  key in `Session.users`.
- Its `subscription_plan` relationship is resolved through
  `Session.plans`. An unset or dangling `subscription_plan_id` reads as no
  subscription. After `delete_plan`, a user who still points at the deleted
  plan therefore gets "No active subscription"
  (`Utils.DeletedPlanIsNoSubscription`).
- Column defaults take effect at INSERT, not at construction. The sentinel
  admin built in app/auth.py:13 is a transient object: it has no id, no
  password and no usage count (`None`).
- A partial update is the list of set fields, in declaration order. The
  update methods apply it one `setattr` at a time in a loop, as the code
  does.

Behaviour of the code a reader might not expect:
- In app/auth.py:16-17, a found user who is not an admin gets 401, not 403.
- In app/crud.py:43-57, updating or deleting a missing permission returns
  None and raises no not-found error.
- In app/crud.py:16-17, `update_plan` writes only the fields the request
  set and leaves every other field as it was.
- In app/utils.py:13-14, service names are compared as exact, untrimmed
  tokens.

## Model

| member | source | states |
|---|---|---|
| `Utils.Split` | app/utils.py:13 | `split(',')` always yields at least one token, and no token contains a comma |
| `Utils.JoinSplit` | app/utils.py:13 | joining the tokens with commas gives back the plan's permission string, so no character is lost or trimmed |
| `Utils.SplitJoin` | app/utils.py:13 | splitting comma-free tokens joined by commas gives back exactly those tokens, so Split is the only decomposition into comma-free tokens |
| `Utils.NoTrimming` | app/utils.py:13-14 | "storage, compute" splits into "storage" and " compute", so "compute" is not allowed: membership is exact, untrimmed token equality |
| `Utils.EmptyPermissions` | app/utils.py:13-14 | an empty permission string splits into the single token "" |
| `Utils.SubscriptionPlan` | app/models.py:20-21 | the user's plan is present exactly when the foreign key is set and names a stored plan, and it is that plan |
| `Utils.AccessCheck` | app/utils.py:5-18 | no plan gives 403 "No active subscription" for any service; quota is checked before membership (403 "Usage limit reached" even for a service not in the plan); an in-quota call for a service not among the tokens gives 403 "API not included in subscription plan"; a grant happens exactly when all three checks pass, adds one to the counter, changes no other field and leaves the counter within the quota |
| `Utils.Outcomes` | app/utils.py:9-18 | the results of n consecutive calls for one user and service, each call seeing the user as the previous one left it; once a call is denied, every later call is denied with the same error, because a denial writes nothing |
| `Utils.GrantsUntilLimit` | app/utils.py:9-18 | from a counter c at or below the limit L, for an allowed service, call i is granted with counter c+i+1 while c+i < L, and every later call is denied with "Usage limit reached" |
| `Utils.ExactlyLimitGrants` | app/utils.py:9-18 | from a counter of 0 and a limit L >= 0, the first L calls are granted, the last leaving the counter at L, and call L+1 is denied with "Usage limit reached" |
| `Utils.DeletedPlanIsNoSubscription` | app/utils.py:6-7 | a user whose plan has been removed from the table is denied with "No active subscription" |
| `Utils.CheckUsageLimit` | app/utils.py:5-19 | returns the error of the decision and leaves every user row unchanged on a denial; on a grant, stores the user with the counter increased by one; the plans table is never written; the session invariant holds afterwards |
| `Crud.PlanItems` | app/crud.py:16 | an update that sets no field yields no items, and there are at most four |
| `Crud.SetPlanAttr` | app/crud.py:16-17 | one `setattr` writes the named column of the plan and keeps the id and every other column |
| `Crud.SetPlanAttrs` | app/crud.py:16-17 | the `setattr` calls for a list of items, first to last, never change the plan's id |
| `Crud.PlanUpdateFields` | app/crud.py:16-17 | applying an update's items overwrites exactly the fields it sets; the id and every unset field keep their stored values |
| `Crud.EmptyPlanUpdateIsIdentity` | app/crud.py:16-17 | an update with no field set leaves the plan unchanged |
| `Crud.PlanUpdateIdempotent` | app/crud.py:16-17 | applying the same update twice gives the same plan as applying it once |
| `Crud.CreatePlan` | app/crud.py:5-10 | the new plan is stored under an id not in use before, carries the request's name, description, permissions and limit, and no other plan changes |
| `Crud.UpdatePlan` | app/crud.py:12-20 | a missing id raises 404 "Plan not found" with the table unchanged; otherwise the loop of `setattr` calls stores and returns the plan with the set fields written over it, and no other plan changes |
| `Crud.DeletePlan` | app/crud.py:22-28 | a missing id raises 404 "Plan not found" with the table unchanged; otherwise exactly that id is removed and "Plan deleted" is returned |
| `Crud.PermissionItems` | app/crud.py:46 | an update that sets no field yields no items, and there are at most two |
| `Crud.SetPermissionAttr` | app/crud.py:46-47 | one `setattr` writes the named column of the permission (a set description is no longer null) and keeps the id and the other column |
| `Crud.SetPermissionAttrs` | app/crud.py:46-47 | the `setattr` calls for a list of items, first to last, never change the permission's id |
| `Crud.PermissionUpdateFields` | app/crud.py:46-47 | applying a permission update's items overwrites exactly the fields it sets and keeps the id and every unset field |
| `Crud.NameTakenIffDuplicate` | app/models.py:28 | against a table that meets the UNIQUE constraint on `name`, storing a row under an id breaks the constraint exactly when another row already carries its name; this is the test `Crud.CreatePermission` and `Crud.UpdatePermission` make before writing |
| `Crud.CreatePermission` | app/crud.py:30-35 | a missing name fails NOT NULL and a name already in use fails UNIQUE, both leaving the table unchanged; otherwise the new row is stored under an unused id with the request's name and description; the insert succeeds exactly when neither constraint fails |
| `Crud.Window` | app/crud.py:38 | OFFSET skip LIMIT limit keeps min(limit, n - skip) positions of a scan, starting at position skip |
| `Crud.RowsOf` | app/crud.py:38 | fetches the rows stored under a list of ids, one per id, in that order |
| `Crud.Page` | app/crud.py:37-38 | a page holds min(limit, n - skip) rows (none when skip >= n), and row i is the row at scan position skip + i |
| `Crud.PageInIdOrder` | app/crud.py:37-38 | every row of a page is a stored row, and a page lists rows by strictly ascending id, so no row repeats |
| `Crud.GetPermissions` | app/crud.py:37-38 | returns the page at offset skip (0 when omitted) and limit limit (100 when omitted) of the permissions table |
| `Crud.GetPermission` | app/crud.py:40-41 | returns the row with that id when there is one, and None exactly when the id is absent |
| `Crud.UpdatePermission` | app/crud.py:43-50 | a missing id returns None, raises nothing and changes nothing; renaming onto a name another row carries fails UNIQUE and changes nothing; otherwise stores and returns the row with the set fields written over it, and no other row changes |
| `Crud.DeletePermission` | app/crud.py:52-57 | a missing id returns None and changes nothing; a present id is removed alone and its row is returned |
| `Auth.FirstWithUsername` | app/auth.py:15 | the first row in visiting order whose username equals the name, or None exactly when no visited row has it |
| `Auth.FindByUsername` | app/auth.py:15 | the lookup finds a stored row with that exact username, and answers None exactly when no row has it |
| `Auth.GetCurrentAdmin` | app/auth.py:8-18 | "admin_token" yields the built-in admin without reading the table; any other token is a username, and an accepted user is a stored row with that username; an unknown name gives 401 "Invalid credentials"; every success is an admin and every failure is that same 401 |
| `Auth.StoredUserDecides` | app/auth.py:15-18 | with usernames unique, a stored admin's username yields exactly that row, and a stored non-admin's username gives 401, not 403 |
| `Auth.AcceptedIffStoredAdmin` | app/auth.py:15-18 | with usernames unique, a token other than "admin_token" is accepted exactly when some stored admin has it as username |
| `Models.InsertUser` | app/models.py:14-22 | an inserted user row gets its primary key; an unset `is_admin` becomes false and an unset `usage_count` becomes 0; the other columns are kept |
| `Models.IsAdmin` | app/auth.py:16 | an unset (NULL) or false `is_admin` is not an admin, as `not user.is_admin` makes it; only `True` is |
| `Models.PlansKeyedById` | app/models.py:8 | `plans.id` is the primary key: every row is stored under its own id, so no row is stored under two keys |
| `Models.PermissionsKeyedById` | app/models.py:27 | `permissions.id` is the primary key: every row is stored under its own id, so no row is stored under two keys |
| `Models.UsersKeyedById` | app/models.py:16 | `users.id` is the primary key: every stored user has its id set to its key, so no row is stored under two keys |
| `Models.UniqueUsernames` | app/models.py:17 | `users.username` is UNIQUE: the keys whose row carries a stored username are exactly one key |
| `Models.UniquePermissionNames` | app/models.py:28 | `permissions.name` is UNIQUE: the keys whose row carries a stored name are exactly one key |
| `Store.Session.Valid` | app/models.py:8-28 | the session invariant collects the primary-key and UNIQUE constraints of the three tables, and the next autoincrement ids of plans and permissions are keys not in use |
| `Store.Session.constructor` | app/models.py:8-28 | a session over a users table that meets its key and UNIQUE constraints, with empty plans and permissions tables, meets the session invariant |
| `Store.ScanOrder` | app/crud.py:38 | the scan visits every key of the table exactly once, in ascending order |

## Left out

- HTTP routing, dependency injection, request logging and table creation
  at start-up (app/main.py) are not modelled. The admin gate is
  `Auth.GetCurrentAdmin` alone.
- Request validation (app/schemas.py) is not modelled. The schema makes
  every plan field required in an update; the model lets each field be
  unset, which is what `exclude_unset` in app/crud.py handles.
- `PermissionCreate` and `PermissionUpdate` are not defined in the shown
  schemas. They are modelled as an optional name and an optional
  description.
- An update that explicitly sets a field to null is not modelled. Set
  values are always non-null.
- app/database.py is not part of this model. The engine, the session
  factory and session closing are not modelled.
- Commit and refresh are not modelled; a write takes effect at once. A
  failed commit (a constraint violation) leaves the table as it was.
- The constraint-violation details and the `TypeError` text are stand-ins.
  The exact wording depends on the database engine and the Python version.
- Id allocation: new rows take ids from a counter above every key in use.
  Whether the engine would reuse the largest id after a delete is not
  captured.
- `Crud.GetPermissions`: skip and limit are naturals. How the engine treats
  negative OFFSET or LIMIT values is not captured.
- The read-modify-write of `usage_count` is not atomic in the code.
  Concurrent calls are not modelled; calls are taken one at a time.
- Whether the database enforces the plan foreign key is not visible. The
  model resolves the key through the plans table and treats a miss as no
  subscription.
- `plans.name`, `description`, `api_permissions`, `usage_limit` and
  `users.username` are nullable columns, but the model stores them as
  non-null values. Plans are only written through create and update, whose
  inputs are non-null, and a NULL username never equals a token. A NULL
  `usage_limit` would raise a `TypeError` at app/utils.py:9, and a NULL
  `api_permissions` an `AttributeError` at app/utils.py:13; neither is
  modelled.
- The token print at app/auth.py:9 is console output and is not modelled.
- The user columns are modelled, but no modelled code creates a user.
  `Models.InsertUser` states the column defaults a user INSERT applies,
  and `Store.Session.constructor` starts from an existing users table.
- Token issuance, password checking, subscribing a user to a plan, reading
  usage, listing or fetching plans, and creating users have no code in the
  modelled files and are not modelled.
