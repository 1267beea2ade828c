/**
 * The records the backend exchanges: the `users` row and the authentication
 * payloads (backend/src/models/user.rs), the résumé analyser's results
 * (backend/src/models/resume.rs and backend/src/services/resume.rs), the
 * `usage_logs` row, and the HTTP errors the handlers return.
 */
module Models {

  import opened Basics
  import opened Calendar

  /** Rust `i32`. */
  type I32 = x: int | -0x8000_0000 <= x < 0x8000_0000
  const I32Max: int := 0x7FFF_FFFF

  /** Rust `u8`. */
  type U8 = x: int | 0 <= x < 0x100

  /** A UUID, as an opaque 128-bit number. */
  type Uuid = x: nat | x < 0x1_0000_0000_0000_0000_0000_0000_0000_0000

  /** One row of the `users` table. */
  datatype User = User(
    id: Uuid,
    email: string,
    passwordHash: string,
    name: Option<string>,
    avatarUrl: Option<string>,
    subscriptionTier: string,
    subscriptionStartDate: Option<DateTime>,
    subscriptionEndDate: Option<DateTime>,
    stripeCustomerId: Option<string>,
    stripeSubscriptionId: Option<string>,
    usageCount: I32,
    usageLimit: I32,
    usageResetDate: DateTime,
    createdAt: DateTime,
    updatedAt: DateTime,
    lastLoginAt: Option<DateTime>,
    isActive: bool,
    isVerified: bool,
    verificationToken: Option<string>,
    resetPasswordToken: Option<string>,
    resetPasswordExpires: Option<DateTime>)

  datatype RegisterRequest = RegisterRequest(email: string, password: string, name: Option<string>)

  datatype LoginRequest = LoginRequest(email: string, password: string)

  datatype AuthResponse = AuthResponse(token: string, user: User)

  /** The JWT payload: subject (user id), email, tier, expiry and issue time. */
  datatype Claims = Claims(sub: Uuid, email: string, tier: string, exp: nat, iat: nat)

  /** One row of the `usage_logs` table (its generated columns are not modelled). */
  datatype UsageLog = UsageLog(userId: Uuid, action: string)

  /** An extracted keyword with its weight and category. */
  datatype Keyword = Keyword(word: string, importance: U8, category: string)

  datatype ScoreCategory = ScoreCategory(name: string, score: U8, feedback: string)

  datatype OptimizeResult = OptimizeResult(optimizedResume: string, changes: seq<string>, matchScore: U8)

  datatype ScoreResult = ScoreResult(overallScore: U8, categories: seq<ScoreCategory>, suggestions: seq<string>)

  /** `(StatusCode, String)`: the error half of every handler's result. */
  datatype HttpError = HttpError(status: int, message: string)

  const BadRequest: int := 400
  const Unauthorized: int := 401
  const Forbidden: int := 403
  const Conflict: int := 409
  const InternalServerError: int := 500
}
