/**
 * The `register` and `login` handlers (backend/src/routes/auth.rs): their checks,
 * in order, with the status each failure returns, and the rows they write.
 *
 * Argon2 hashing is the parameter `hashed` (its salt is random), Argon2
 * verification the parameter `verifyPassword`, JWT creation the parameter
 * `createJwt`, the clock the parameter `now`, and the error of a database
 * statement an optional message (`None` when it succeeds).
 */
module AuthRoutes {

  import opened Basics
  import opened Text
  import opened Calendar
  import opened Models
  import opened Database

  const MinPasswordBytes: nat := 8

  /**
   * The two input checks of `register`: the email must contain '@' (checked
   * first), the password must be at least 8 bytes of UTF-8.
   */
  function RegisterInputError(req: RegisterRequest): (e: Option<HttpError>)
    ensures e.Some? ==> e.value.status == BadRequest
    ensures '@' !in req.email ==> e == Some(HttpError(BadRequest, "Invalid email format"))
    ensures '@' in req.email && ByteLen(req.password) < MinPasswordBytes ==>
      e == Some(HttpError(BadRequest, "Password must be at least 8 characters"))
    ensures e.None? <==> '@' in req.email && ByteLen(req.password) >= MinPasswordBytes
  {
    if '@' !in req.email then Some(HttpError(BadRequest, "Invalid email format"))
    else if ByteLen(req.password) < MinPasswordBytes then
      Some(HttpError(BadRequest, "Password must be at least 8 characters"))
    else None
  }

  /**
   * The checks of `register` before anything is written, in order: the input
   * checks, the duplicate-email query (500 when it fails, 409 when the email is
   * taken), then hashing (500 when it fails). On success, the password hash.
   */
  function RegisterChecks(users: seq<User>, req: RegisterRequest, selectError: Option<string>,
                          hashed: Result<string, string>): (r: Result<string, HttpError>)
    ensures RegisterInputError(req).Some? ==> r == Err(RegisterInputError(req).value)
    ensures r.Err? && r.error.status == Conflict <==>
      RegisterInputError(req).None? && selectError.None? && FindByEmail(users, req.email).Some?
    ensures r.Ok? <==> RegisterInputError(req).None? && selectError.None?
                       && FindByEmail(users, req.email).None? && hashed.Ok?
    ensures r.Ok? ==> r.value == hashed.value && forall u :: u in users ==> u.email != req.email
  {
    match RegisterInputError(req)
    case Some(e) => Err(e)
    case None =>
      if selectError.Some? then Err(HttpError(InternalServerError, selectError.value))
      else if FindByEmail(users, req.email).Some? then Err(HttpError(Conflict, "Email already registered"))
      else match hashed
        case Err(msg) => Err(HttpError(InternalServerError, msg))
        case Ok(hash) => Ok(hash)
  }

  /**
   * The row `INSERT ... RETURNING *` yields: the columns the database fills
   * (`defaults`: id, tier, counters, timestamps, flags) with the request's email
   * and name, the hash, and a reset date of day 1 of the month after `now`, at
   * the same time of day.
   */
  function NewUserRow(defaults: User, req: RegisterRequest, hash: string, now: DateTime): (u: User)
    requires Valid(now)
    ensures u.email == req.email && u.passwordHash == hash && u.name == req.name
    ensures IsFirstOfMonthAt(u.usageResetDate, now.nanos) && Less(now, u.usageResetDate)
    ensures now.month < 12 ==> u.usageResetDate == DateTime(now.year, now.month + 1, 1, now.nanos)
    ensures now.month == 12 ==> u.usageResetDate == DateTime(now.year + 1, 1, 1, now.nanos)
    ensures u.id == defaults.id && u.usageCount == defaults.usageCount && u.usageLimit == defaults.usageLimit
  {
    defaults.(email := req.email, passwordHash := hash, name := req.name,
              usageResetDate := FirstOfNextMonth(now))
  }

  /**
   * `register`. Nothing is written unless every check passes; then exactly one
   * row is appended (the id may collide, or the insert fail, which is a 500 with
   * nothing written); a JWT failure after the insert is a 500 that leaves the new
   * row in place.
   */
  method Register(db: Store, req: RegisterRequest, selectError: Option<string>,
                  hashed: Result<string, string>, defaults: User, insertError: Option<string>,
                  createJwt: User -> Result<string, string>, now: DateTime)
    returns (r: Result<AuthResponse, HttpError>)
    requires db.Valid() && Valid(now)
    modifies db
    ensures db.Valid()
    ensures db.usageLogs == old(db.usageLogs)
    ensures var checks := RegisterChecks(old(db.users), req, selectError, hashed);
      && (checks.Err? ==> r == Err(checks.error) && db.users == old(db.users))
      && (checks.Ok? ==>
            var row := NewUserRow(defaults, req, checks.value, now);
            var stored := insertError.None? && FindById(old(db.users), row.id).None?;
            && db.users == (if stored then old(db.users) + [row] else old(db.users))
            && (!stored ==> r.Err? && r.error.status == InternalServerError)
            && (stored ==> r == match createJwt(row)
                                case Ok(token) => Ok(AuthResponse(token, row))
                                case Err(msg) => Err(HttpError(InternalServerError, msg))))
    ensures UniqueEmails(old(db.users)) ==> UniqueEmails(db.users)
  {
    var checks := RegisterChecks(db.users, req, selectError, hashed);
    if checks.Err? {
      return Err(checks.error);
    }
    var row := NewUserRow(defaults, req, checks.value, now);
    if insertError.Some? {
      return Err(HttpError(InternalServerError, insertError.value));
    }
    ghost var before := db.users;
    var inserted := db.InsertUser(row);
    if !inserted {
      return Err(HttpError(InternalServerError, "duplicate key value violates unique constraint"));
    }
    assert UniqueEmails(before) ==> UniqueEmails(db.users) by {
      if UniqueEmails(before) {
        forall i, j | 0 <= i < j < |db.users|
          ensures db.users[i].email != db.users[j].email
        {
          if j == |before| {
            assert db.users[i] in before;
          }
        }
      }
    }
    match createJwt(row)
    case Ok(token) =>
      r := Ok(AuthResponse(token, row));
    case Err(msg) =>
      r := Err(HttpError(InternalServerError, msg));
  }

  /** A successful registration adds exactly one user, under the new email. */
  lemma RegisterAddsOne(users: seq<User>, req: RegisterRequest, hash: string, defaults: User, now: DateTime)
    requires Valid(now)
    requires forall u :: u in users ==> u.email != req.email
    ensures var after := users + [NewUserRow(defaults, req, hash, now)];
      |after| == |users| + 1 && FindByEmail(after, req.email) == Some(NewUserRow(defaults, req, hash, now))
  {
    var row := NewUserRow(defaults, req, hash, now);
    FindByEmailAppend(users, row);
  }

  /** Looking an email up after appending a row whose email is new finds that row. */
  lemma {:induction false} FindByEmailAppend(users: seq<User>, row: User)
    requires forall u :: u in users ==> u.email != row.email
    ensures FindByEmail(users + [row], row.email) == Some(row)
  {
    if users != [] {
      assert users[0] in users;
      assert (users + [row])[1..] == users[1..] + [row];
      FindByEmailAppend(users[1..], row);
    }
  }

  const InvalidCredentials: HttpError := HttpError(Unauthorized, "Invalid credentials")

  /**
   * The checks of `login` before anything is written, in order: the lookup (500
   * when it fails, 401 when the email is unknown), password verification (500
   * when it errs, the same 401 when the password is wrong), then the active
   * flag (403). On success, the stored row.
   */
  function LoginChecks(users: seq<User>, req: LoginRequest, lookupError: Option<string>,
                       verifyPassword: (string, string) -> Result<bool, string>): (r: Result<User, HttpError>)
    ensures lookupError.None? && FindByEmail(users, req.email).None? ==> r == Err(InvalidCredentials)
    ensures lookupError.None? && FindByEmail(users, req.email).Some?
            && verifyPassword(req.password, FindByEmail(users, req.email).value.passwordHash) == Ok(false)
            ==> r == Err(InvalidCredentials)
    ensures r.Err? && r.error.status == Forbidden <==>
      lookupError.None? && FindByEmail(users, req.email).Some?
      && verifyPassword(req.password, FindByEmail(users, req.email).value.passwordHash) == Ok(true)
      && !FindByEmail(users, req.email).value.isActive
    ensures lookupError.Some? ==> r == Err(HttpError(InternalServerError, lookupError.value))
    ensures lookupError.None? && FindByEmail(users, req.email).Some?
            && verifyPassword(req.password, FindByEmail(users, req.email).value.passwordHash).Err?
            ==> r == Err(HttpError(InternalServerError,
                                   verifyPassword(req.password, FindByEmail(users, req.email).value.passwordHash).error))
    ensures r.Ok? <==>
      lookupError.None? && FindByEmail(users, req.email).Some?
      && verifyPassword(req.password, FindByEmail(users, req.email).value.passwordHash) == Ok(true)
      && FindByEmail(users, req.email).value.isActive
    ensures r.Ok? ==> r == Ok(FindByEmail(users, req.email).value)
    ensures r.Ok? ==> r.value in users && r.value.email == req.email && r.value.isActive
                      && verifyPassword(req.password, r.value.passwordHash) == Ok(true)
  {
    if lookupError.Some? then Err(HttpError(InternalServerError, lookupError.value))
    else match FindByEmail(users, req.email)
      case None => Err(InvalidCredentials)
      case Some(user) =>
        match verifyPassword(req.password, user.passwordHash)
        case Err(msg) => Err(HttpError(InternalServerError, msg))
        case Ok(matches) =>
          if !matches then Err(InvalidCredentials)
          else if !user.isActive then Err(HttpError(Forbidden, "Account is deactivated"))
          else Ok(user)
  }

  /** An unknown email and a wrong password get the same response. */
  lemma LoginHidesWhichCheckFailed(users: seq<User>, req: LoginRequest,
                                   verifyPassword: (string, string) -> Result<bool, string>)
    requires FindByEmail(users, req.email).None?
             || verifyPassword(req.password, FindByEmail(users, req.email).value.passwordHash) == Ok(false)
    ensures LoginChecks(users, req, None, verifyPassword) == Err(InvalidCredentials)
  {
  }

  /**
   * `login`. Nothing is written unless every check passes; then `last_login_at`
   * is set (a failure of that update, `touchFails`, is ignored), and the response
   * carries the row as read before that update.
   */
  method Login(db: Store, req: LoginRequest, lookupError: Option<string>,
               verifyPassword: (string, string) -> Result<bool, string>, touchFails: bool,
               createJwt: User -> Result<string, string>, now: DateTime)
    returns (r: Result<AuthResponse, HttpError>)
    requires db.Valid()
    modifies db
    ensures db.Valid()
    ensures db.usageLogs == old(db.usageLogs)
    ensures var checks := LoginChecks(old(db.users), req, lookupError, verifyPassword);
      && (checks.Err? ==> r == Err(checks.error) && db.users == old(db.users))
      && (checks.Ok? && touchFails ==> db.users == old(db.users))
      && (checks.Ok? && !touchFails ==>
            db.users == UpdateWhere(old(db.users), checks.value.id, (u: User) => u.(lastLoginAt := Some(now))))
      && (checks.Ok? ==> r == match createJwt(checks.value)
                              case Ok(token) => Ok(AuthResponse(token, checks.value))
                              case Err(msg) => Err(HttpError(InternalServerError, msg)))
  {
    var checks := LoginChecks(db.users, req, lookupError, verifyPassword);
    if checks.Err? {
      return Err(checks.error);
    }
    var user := checks.value;
    if !touchFails {
      db.TouchLastLogin(user.id, now);
    }
    match createJwt(user)
    case Ok(token) =>
      r := Ok(AuthResponse(token, user));
    case Err(msg) =>
      r := Err(HttpError(InternalServerError, msg));
  }
}
