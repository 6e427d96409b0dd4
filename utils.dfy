/** `check_usage_limit`: the three ordered access checks (subscription,
    quota, membership of the service in the plan's comma-separated list) and
    the usage increment on success; and Python's `str.split(',')`, which
    turns the plan's list into tokens. */
module Utils {
  import opened Results
  import opened Models
  import opened Store

  const Sep: char := ','

  /** `s.split(',')`: the maximal comma-free pieces of `s`, in order, with an
      empty piece before a leading comma, after a trailing comma and between
      two adjacent commas. */
  function Split(s: string): (r: seq<string>)
    ensures |r| >= 1
    ensures forall i :: 0 <= i < |r| ==> Sep !in r[i]
    decreases |s|
  {
    if s == [] then [""]
    else
      var rest := Split(s[1..]);
      if s[0] == Sep then [""] + rest
      else [[s[0]] + rest[0]] + rest[1..]
  }

  /** `','.join(ts)`, the inverse of `Split`. */
  function Join(ts: seq<string>): (s: string)
    requires |ts| >= 1
    decreases |ts|
  {
    if |ts| == 1 then ts[0] else ts[0] + [Sep] + Join(ts[1..])
  }

  /** Joining the pieces with commas gives back the original string. */
  lemma {:induction false} JoinSplit(s: string)
    ensures Join(Split(s)) == s
    decreases |s|
  {
    if s != [] {
      JoinSplit(s[1..]);
      var rest := Split(s[1..]);
      var r := Split(s);
      if s[0] == Sep {
        assert r == [""] + rest && r[1..] == rest;
        assert Join(r) == "" + [Sep] + Join(rest);
      } else if |rest| == 1 {
        assert r == [[s[0]] + rest[0]];
      } else {
        assert r == [[s[0]] + rest[0]] + rest[1..] && r[1..] == rest[1..];
        assert Join(rest) == rest[0] + [Sep] + Join(rest[1..]);
        assert Join(r) == [s[0]] + rest[0] + [Sep] + Join(rest[1..]);
      }
    }
  }

  /** A comma-free prefix becomes the start of the first piece. */
  lemma {:induction false} SplitPrefix(t: string, s: string)
    requires Sep !in t
    ensures Split(t + s) == [t + Split(s)[0]] + Split(s)[1..]
    decreases |t|
  {
    if t != [] {
      assert (t + s)[0] == t[0] && (t + s)[1..] == t[1..] + s;
      SplitPrefix(t[1..], s);
      var rest := Split(t[1..] + s);
      assert rest[0] == t[1..] + Split(s)[0] && rest[1..] == Split(s)[1..];
      assert [t[0]] + (t[1..] + Split(s)[0]) == t + Split(s)[0];
    } else {
      assert t + s == s && t + Split(s)[0] == Split(s)[0];
    }
  }

  /** Splitting comma-free tokens joined with commas gives back exactly
      those tokens, so `Split` is the only decomposition of a string into
      comma-free tokens. */
  lemma {:induction false} SplitJoin(ts: seq<string>)
    requires |ts| >= 1
    requires forall i :: 0 <= i < |ts| ==> Sep !in ts[i]
    ensures Split(Join(ts)) == ts
    decreases |ts|
  {
    if |ts| == 1 {
      SplitPrefix(ts[0], []);
      assert ts[0] + [] == ts[0];
    } else {
      SplitJoin(ts[1..]);
      SplitPrefix(ts[0], [Sep] + Join(ts[1..]));
      assert ts[0] + [Sep] + Join(ts[1..]) == ts[0] + ([Sep] + Join(ts[1..]));
      assert Split([Sep] + Join(ts[1..])) == [""] + ts[1..] by {
        assert ([Sep] + Join(ts[1..]))[1..] == Join(ts[1..]);
      }
      assert ts[0] + "" == ts[0];
    }
  }

  /** Membership is exact token equality: no whitespace is trimmed, so a
      space after a comma becomes part of the next service name. */
  lemma NoTrimming()
    ensures Split("storage, compute") == ["storage", " compute"]
    ensures "compute" !in Split("storage, compute")
  {
    var ts := ["storage", " compute"];
    assert Sep !in ts[0] && Sep !in ts[1];
    SplitJoin(ts);
    assert ts[1..] == [" compute"];
    assert Join(ts) == ts[0] + [Sep] + ts[1];
    assert ts[0] + [Sep] + ts[1] == "storage, compute";
    assert Split("storage, compute") == ts;
    assert "compute" != ts[0] && "compute" != ts[1];
  }

  /** An empty permission string allows exactly the empty service name. */
  lemma EmptyPermissions()
    ensures Split("") == [""]
  {
  }

  const NoActiveSubscription := Http(403, "No active subscription")
  const UsageLimitReached := Http(403, "Usage limit reached")
  const ApiNotIncluded := Http(403, "API not included in subscription plan")

  /** `user.subscription_plan`: the plan the user's foreign key points at, or
      None when the key is unset or names no stored plan. */
  function SubscriptionPlan(u: User, plans: map<int, Plan>): (p: Option<Plan>)
    ensures p.Some? <==> u.subscriptionPlanId.Some? && u.subscriptionPlanId.value in plans
    ensures p.Some? ==> p.value == plans[u.subscriptionPlanId.value]
  {
    if u.subscriptionPlanId.Some? && u.subscriptionPlanId.value in plans
    then Some(plans[u.subscriptionPlanId.value])
    else None
  }

  /** The decision `check_usage_limit` takes for user `u` asking for
      `apiName`: the user as it is after a granted call, or the error raised. */
  function AccessCheck(u: User, plans: map<int, Plan>, apiName: string): (r: Result<User>)
    // no subscription wins over everything, whatever the service
    ensures SubscriptionPlan(u, plans).None? ==> r == Err(NoActiveSubscription)
    // quota is checked before membership
    ensures var sp := SubscriptionPlan(u, plans);
      (sp.Some? && u.usageCount.Some? && u.usageCount.value >= sp.value.usageLimit) ==> r == Err(UsageLimitReached)
    ensures var sp := SubscriptionPlan(u, plans);
      (sp.Some? && u.usageCount.Some? && u.usageCount.value < sp.value.usageLimit
       && apiName !in Split(sp.value.apiPermissions)) ==> r == Err(ApiNotIncluded)
    // a grant happens exactly when all three checks pass
    ensures var sp := SubscriptionPlan(u, plans);
      r.Ok? <==> sp.Some? && u.usageCount.Some? && u.usageCount.value < sp.value.usageLimit
                 && apiName in Split(sp.value.apiPermissions)
    // a grant adds one to the counter and changes nothing else; it stays within the quota
    ensures r.Ok? ==> u.usageCount.Some? && r.value == u.(usageCount := Some(u.usageCount.value + 1))
    ensures r.Ok? ==> r.value.usageCount.value <= SubscriptionPlan(u, plans).value.usageLimit
    // every denial is a 403, except the TypeError of a NULL counter under a plan
    ensures (r.Err? && r.error.TypeMismatch?) <==> (SubscriptionPlan(u, plans).Some? && u.usageCount.None?)
    ensures (r.Err? && !r.error.TypeMismatch?) ==> r.error.Http? && r.error.status == 403
  {
    match SubscriptionPlan(u, plans)
    case None => Err(NoActiveSubscription)
    case Some(plan) =>
      if u.usageCount.None? then Err(TypeMismatch("'>=' not supported between NoneType and int"))
      else if u.usageCount.value >= plan.usageLimit then Err(UsageLimitReached)
      else if apiName !in Split(plan.apiPermissions) then Err(ApiNotIncluded)
      else Ok(u.(usageCount := Some(u.usageCount.value + 1)))
  }

  /** The outcomes of `n` consecutive calls for the same user and service,
      each call seeing the user as the previous one left it. A denial leaves
      the user as it was, so every later call is denied the same way. */
  function Outcomes(u: User, plans: map<int, Plan>, apiName: string, n: nat): (rs: seq<Result<User>>)
    ensures |rs| == n
    ensures forall i, j :: 0 <= i < j < n && rs[i].Err? ==> rs[j] == rs[i]
    decreases n
  {
    if n == 0 then []
    else
      var r := AccessCheck(u, plans, apiName);
      var rest := Outcomes(if r.Ok? then r.value else u, plans, apiName, n - 1);
      assert r.Err? && n > 1 ==> rest[0] == r;
      [r] + rest
  }

  /** From a counter `c` below or at a limit `L`, with an allowed service,
      the first `L - c` calls are granted (the i-th leaving the counter at
      `c + i + 1`) and every later call is denied with "Usage limit reached". */
  lemma {:induction false} GrantsUntilLimit(u: User, plans: map<int, Plan>, apiName: string, n: nat)
    requires SubscriptionPlan(u, plans).Some? && u.usageCount.Some?
    requires 0 <= u.usageCount.value <= SubscriptionPlan(u, plans).value.usageLimit
    requires apiName in Split(SubscriptionPlan(u, plans).value.apiPermissions)
    ensures forall i :: 0 <= i < n && u.usageCount.value + i < SubscriptionPlan(u, plans).value.usageLimit ==>
      Outcomes(u, plans, apiName, n)[i] == Ok(u.(usageCount := Some(u.usageCount.value + i + 1)))
    ensures forall i :: 0 <= i < n && u.usageCount.value + i >= SubscriptionPlan(u, plans).value.usageLimit ==>
      Outcomes(u, plans, apiName, n)[i] == Err(UsageLimitReached)
    decreases n
  {
    if n > 0 {
      var c := u.usageCount.value;
      var room := SubscriptionPlan(u, plans).value.usageLimit - c;
      var rs := Outcomes(u, plans, apiName, n);
      var r := AccessCheck(u, plans, apiName);
      var next := if r.Ok? then r.value else u;
      var tail := Outcomes(next, plans, apiName, n - 1);
      assert rs == [r] + tail;
      assert SubscriptionPlan(next, plans) == SubscriptionPlan(u, plans);
      GrantsUntilLimit(next, plans, apiName, n - 1);
      forall i | 0 < i < n
        ensures rs[i] == tail[i - 1]
      {
      }
      if room > 0 {
        assert next == u.(usageCount := Some(c + 1));
        assert next.usageCount.value == c + 1;
        forall i | 0 < i < n && i < room
          ensures rs[i] == Ok(u.(usageCount := Some(c + i + 1)))
        {
          assert tail[i - 1] == Ok(next.(usageCount := Some(c + 1 + (i - 1) + 1)));
          assert next.(usageCount := Some(c + i + 1)) == u.(usageCount := Some(c + i + 1));
        }
      } else {
        assert next == u;
      }
    }
  }

  /** Starting from a zero counter and a limit `L >= 0` for an allowed
      service, exactly `L` calls are granted and call `L + 1` is denied. */
  lemma ExactlyLimitGrants(u: User, plans: map<int, Plan>, apiName: string)
    requires SubscriptionPlan(u, plans).Some? && u.usageCount == Some(0)
    requires SubscriptionPlan(u, plans).value.usageLimit >= 0
    requires apiName in Split(SubscriptionPlan(u, plans).value.apiPermissions)
    ensures var limit := SubscriptionPlan(u, plans).value.usageLimit;
      var rs := Outcomes(u, plans, apiName, limit + 1);
      && (forall i :: 0 <= i < limit ==> rs[i].Ok?)
      && rs[limit] == Err(UsageLimitReached)
      && (limit > 0 ==> rs[limit - 1] == Ok(u.(usageCount := Some(limit))))
  {
    var limit := SubscriptionPlan(u, plans).value.usageLimit;
    GrantsUntilLimit(u, plans, apiName, limit + 1);
  }

  /** A user whose plan has been deleted from the table is treated as having
      no subscription. */
  lemma DeletedPlanIsNoSubscription(u: User, plans: map<int, Plan>, planId: int, apiName: string)
    requires u.subscriptionPlanId == Some(planId)
    ensures AccessCheck(u, plans - {planId}, apiName) == Err(NoActiveSubscription)
  {
  }

  /** `check_usage_limit(db, user, api_name)` for the stored user `userId`:
      the checks in source order with early exits, then the increment. */
  method CheckUsageLimit(db: Session, userId: int, apiName: string) returns (r: Outcome)
    requires db.Valid() && userId in db.users
    modifies db`users
    ensures db.Valid()
    ensures var c := AccessCheck(old(db.users[userId]), db.plans, apiName);
      && (c.Ok? ==> r == Pass && db.users == old(db.users)[userId := c.value])
      && (c.Err? ==> r == Fail(c.error) && db.users == old(db.users))
  {
    var user := db.users[userId];
    var plan := SubscriptionPlan(user, db.plans);
    if plan.None? {
      return Fail(NoActiveSubscription);
    }
    if user.usageCount.None? {
      return Fail(TypeMismatch("'>=' not supported between NoneType and int"));
    }
    if user.usageCount.value >= plan.value.usageLimit {
      return Fail(UsageLimitReached);
    }
    var allowedApis := Split(plan.value.apiPermissions);
    if apiName !in allowedApis {
      return Fail(ApiNotIncluded);
    }
    db.users := db.users[userId := user.(usageCount := Some(user.usageCount.value + 1))];
    r := Pass;
  }
}
