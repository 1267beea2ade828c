/**
 * The usage-quota middleware (backend/src/middleware/usage.rs): `check_usage_limit`
 * decides, in a fixed order of early returns, whether a request may reach its
 * handler, and performs the monthly counter reset on the way; `record_usage`
 * bumps the counter and appends a log row.
 *
 * The JWT check is the parameter `verifyJwt`, the clock the parameter `now`, and
 * the error of a database statement an optional message (`None` when it
 * succeeds).
 */
module UsageGate {

  import opened Basics
  import opened Text
  import opened Calendar
  import opened Models
  import opened Database

  /** `HeaderValue::to_str` succeeds only when every byte is visible ASCII or a tab. */
  predicate VisibleAscii(h: string)
  {
    forall i :: 0 <= i < |h| ==> h[i] == '\t' || (' ' <= h[i] && h[i] <= '~')
  }

  const BearerPrefix: string := "Bearer "

  /** The message of the 403 response. */
  function LimitMessage(limit: int, used: int): string
  {
    "Usage limit exceeded. Limit: " + IntToString(limit) + ", Used: " + IntToString(used)
  }

  /** What the middleware does with a request. */
  datatype Decision =
    | Reject(error: HttpError)
      /** Reset the counter of user `id` to 0 with the next reset at `nextReset`, then pass. */
    | ResetAndPass(id: Uuid, nextReset: DateTime)
    | Pass

  /** The token carried by an `Authorization` header, or the 401 the header earns. */
  function BearerToken(header: Option<string>): (r: Result<string, HttpError>)
    ensures r.Err? ==> r.error.status == Unauthorized
    ensures (header.None? || !VisibleAscii(header.value)) <==> r == Err(HttpError(Unauthorized, "Missing auth token"))
    ensures r.Ok? <==> header.Some? && VisibleAscii(header.value) && StartsWith(header.value, BearerPrefix)
    ensures r.Ok? ==> header.value == BearerPrefix + r.value
  {
    if header.None? || !VisibleAscii(header.value) then
      Err(HttpError(Unauthorized, "Missing auth token"))
    else
      match StripPrefix(header.value, BearerPrefix)
      case None => Err(HttpError(Unauthorized, "Invalid auth header"))
      case Some(token) => Ok(token)
  }

  /**
   * `check_usage_limit` as a decision: header, prefix, token, user lookup, then the
   * reset-or-limit test. `queryError` is the error of the user query, if it fails.
   */
  function Decide(header: Option<string>, verifyJwt: string -> Result<Claims, string>,
                  queryError: Option<string>, users: seq<User>, now: DateTime): (d: Decision)
    requires Valid(now)
    ensures header.None? || !VisibleAscii(header.value) ==> d == Reject(HttpError(Unauthorized, "Missing auth token"))
    ensures BearerToken(header).Err? ==> d == Reject(BearerToken(header).error)
    ensures BearerToken(header).Ok? && verifyJwt(BearerToken(header).value).Err? ==>
      d == Reject(HttpError(Unauthorized, verifyJwt(BearerToken(header).value).error))
    ensures queryError.Some? && BearerToken(header).Ok? && verifyJwt(BearerToken(header).value).Ok? ==>
      d == Reject(HttpError(InternalServerError, queryError.value))
    ensures !d.Reject? ==> Principal(header, verifyJwt, queryError, users).Some?
    ensures d.ResetAndPass? ==> d.nextReset == FirstOfNextMonth(now) && IsFirstOfMonthAt(d.nextReset, now.nanos)
  {
    match BearerToken(header)
    case Err(e) => Reject(e)
    case Ok(token) =>
      match verifyJwt(token)
      case Err(msg) => Reject(HttpError(Unauthorized, msg))
      case Ok(claims) =>
        if queryError.Some? then Reject(HttpError(InternalServerError, queryError.value))
        else
          match FindById(users, claims.sub)
          case None => Reject(HttpError(Unauthorized, "User not found"))
          case Some(user) =>
            if LessEq(user.usageResetDate, now) then ResetAndPass(user.id, FirstOfNextMonth(now))
            else if user.usageCount >= user.usageLimit then
              Reject(HttpError(Forbidden, LimitMessage(user.usageLimit, user.usageCount)))
            else Pass
  }

  /** The user a request authenticates as, when header, token and lookup all succeed. */
  function Principal(header: Option<string>, verifyJwt: string -> Result<Claims, string>,
                     queryError: Option<string>, users: seq<User>): (r: Option<User>)
    ensures r.Some? ==> r.value in users
  {
    match BearerToken(header)
    case Err(_) => None
    case Ok(token) =>
      match verifyJwt(token)
      case Err(_) => None
      case Ok(claims) => if queryError.Some? then None else FindById(users, claims.sub)
  }

  /**
   * Once the request is authenticated: a reset date that has passed resets and
   * passes without looking at the counter; a future one rejects with 403 exactly
   * when the count has reached the limit, and passes otherwise.
   */
  lemma DecideAuthenticated(header: Option<string>, verifyJwt: string -> Result<Claims, string>,
                            queryError: Option<string>, users: seq<User>, now: DateTime)
    requires Valid(now)
    requires Principal(header, verifyJwt, queryError, users).Some?
    ensures var user := Principal(header, verifyJwt, queryError, users).value;
      var d := Decide(header, verifyJwt, queryError, users, now);
      && (LessEq(user.usageResetDate, now) ==> d == ResetAndPass(user.id, FirstOfNextMonth(now)))
      && (!LessEq(user.usageResetDate, now) && user.usageCount >= user.usageLimit ==>
            d == Reject(HttpError(Forbidden, LimitMessage(user.usageLimit, user.usageCount))))
      && (!LessEq(user.usageResetDate, now) && user.usageCount < user.usageLimit ==> d == Pass)
  {
  }

  /**
   * Every rejection before the user query is a 401, whether or not that query
   * would fail, and so is an unknown user once the query succeeds.
   */
  lemma DecideUnauthenticated(header: Option<string>, verifyJwt: string -> Result<Claims, string>,
                              queryError: Option<string>, users: seq<User>, now: DateTime)
    requires Valid(now)
    requires Principal(header, verifyJwt, queryError, users).None?
    requires queryError.None? || BearerToken(header).Err? || verifyJwt(BearerToken(header).value).Err?
    ensures Decide(header, verifyJwt, queryError, users, now).Reject?
    ensures Decide(header, verifyJwt, queryError, users, now).error.status == Unauthorized
  {
  }

  /** A request is rejected with 403 exactly when it authenticates, its reset date lies ahead, and its count has reached its limit. */
  lemma ForbiddenIff(header: Option<string>, verifyJwt: string -> Result<Claims, string>,
                     queryError: Option<string>, users: seq<User>, now: DateTime)
    requires Valid(now)
    ensures var d := Decide(header, verifyJwt, queryError, users, now);
      var p := Principal(header, verifyJwt, queryError, users);
      (d.Reject? && d.error.status == Forbidden)
      <==> p.Some? && !LessEq(p.value.usageResetDate, now) && p.value.usageCount >= p.value.usageLimit
  {
    if Principal(header, verifyJwt, queryError, users).Some? {
      DecideAuthenticated(header, verifyJwt, queryError, users, now);
    } else if queryError.None? || BearerToken(header).Err? || verifyJwt(BearerToken(header).value).Err? {
      DecideUnauthenticated(header, verifyJwt, queryError, users, now);
    }
  }

  /**
   * `check_usage_limit`: applies the decision. The reset `UPDATE` may fail
   * (`resetFails`); its error is dropped (`.ok()`) and the request still passes.
   */
  method CheckUsageLimit(db: Store, header: Option<string>, verifyJwt: string -> Result<Claims, string>,
                         queryError: Option<string>, resetFails: bool, now: DateTime) returns (r: Result<(), HttpError>)
    requires Valid(now) && db.Valid()
    modifies db
    ensures db.Valid()
    ensures var d := Decide(header, verifyJwt, queryError, old(db.users), now);
      && (r.Err? <==> d.Reject?)
      && (d.Reject? ==> r.error == d.error)
      && (d.ResetAndPass? && !resetFails ==>
            db.users == UpdateWhere(old(db.users), d.id,
                                    (u: User) => u.(usageCount := 0, usageResetDate := d.nextReset)))
      && (!d.ResetAndPass? || resetFails ==> db.users == old(db.users))
    ensures db.usageLogs == old(db.usageLogs)
  {
    var d := Decide(header, verifyJwt, queryError, db.users, now);
    match d
    case Reject(e) =>
      r := Err(e);
    case ResetAndPass(id, nextReset) =>
      if !resetFails {
        db.ResetUsage(id, nextReset);
      }
      r := Ok(());
    case Pass =>
      r := Ok(());
  }

  /**
   * A reset user passes the next check at once, whatever its count was: the reset
   * date is now in the future and the count is 0, so it passes as long as its
   * limit is positive.
   */
  lemma ResetThenPass(users: seq<User>, i: nat, now: DateTime)
    requires UniqueIds(users) && i < |users| && Valid(now)
    requires users[i].usageLimit > 0
    ensures var next := FirstOfNextMonth(now);
      var reset := UpdateWhere(users, users[i].id, (u: User) => u.(usageCount := 0, usageResetDate := next));
      var user := FindById(reset, users[i].id);
      user.Some? && !LessEq(user.value.usageResetDate, now) && user.value.usageCount < user.value.usageLimit
  {
    var next := FirstOfNextMonth(now);
    var change := (u: User) => u.(usageCount := 0, usageResetDate := next);
    UpdateWhereKeepsIds(users, users[i].id, change);
    var reset := UpdateWhere(users, users[i].id, change);
    FindByIdUnique(reset, i);
    LessEqTotal(now, next);
  }

  /**
   * `record_usage`: the increment, then the log row. A failed increment
   * (`incrementError`, or a counter at the `i32` maximum) returns its error before
   * the log row is written; a failed insert (`insertError`) keeps the increment,
   * since the two statements are not in one transaction.
   */
  method RecordUsage(db: Store, userId: Uuid, action: string,
                     incrementError: Option<string>, insertError: Option<string>)
    returns (r: Result<(), string>)
    requires db.Valid()
    modifies db
    ensures db.Valid()
    ensures var bumped := IncrementUsage(old(db.users), userId);
      && (incrementError.Some? || bumped.None? ==>
            r.Err? && db.users == old(db.users) && db.usageLogs == old(db.usageLogs))
      && (incrementError.None? && bumped.Some? ==> db.users == bumped.value)
      && (incrementError.None? && bumped.Some? && insertError.Some? ==>
            r == Err(insertError.value) && db.usageLogs == old(db.usageLogs))
      && (incrementError.None? && bumped.Some? && insertError.None? ==>
            r.Ok? && db.usageLogs == old(db.usageLogs) + [UsageLog(userId, action)])
  {
    if incrementError.Some? {
      return Err(incrementError.value);
    }
    var ok := db.Increment(userId);
    if !ok {
      return Err("integer out of range");
    }
    if insertError.Some? {
      return Err(insertError.value);
    }
    db.AppendLog(UsageLog(userId, action));
    r := Ok(());
  }
}
