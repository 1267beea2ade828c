# Résumé optimizer: a verified model of its decision and session logic

The system is a résumé-optimisation web service. A Rust backend offers:

- a rule-based résumé analyser: keyword extraction, match and coverage scores,
  optimisation advice, four score categories and a cover-letter template;
- a monthly usage quota, enforced by a middleware and a usage counter;
- registration and login handlers.

A React frontend keeps the session in memory and mirrors it into `localStorage`.
It sends authenticated requests through one helper, and shows four views with
real rules: keyword recommendations, the login/register dialog, a usage card
and a score view.

The model restates each of these pieces in Dafny, one module per file:

| file | module | what it models |
|---|---|---|
| `basics.dfy` | `Basics` | `Option` and `Result` |
| `text.dfy` | `Text` | substring search, prefixes, UTF-8 byte length, ASCII lower-casing, `split_whitespace` over Unicode `White_Space`, `lines`, `join`, order-keeping filter, decimal text |
| `json.dfy` | `Json` | the JSON values the frontend exchanges, `JSON.stringify`, `JSON.parse` and property access, with an object as its list of members (see Left out); `JSON.parse(JSON.stringify(v))` gives back `v` |
| `calendar.dfy` | `Calendar` | naive UTC timestamps, their order, and "day 1 of next month at the same time of day" |
| `models.dfy` | `Models` | the backend records: the `users` row, request and response payloads, JWT claims, analyser results, HTTP errors |
| `database.dfy` | `Database` | the `users` and `usage_logs` tables as a class whose methods are the handlers' SQL statements |
| `resume_analyzer.dfy` | `ResumeAnalyzer` | `ResumeOptimizer` in `backend/src/services/resume.rs` |
| `usage_gate.dfy` | `UsageGate` | `check_usage_limit` and `record_usage` in `backend/src/middleware/usage.rs` |
| `auth_routes.dfy` | `AuthRoutes` | `register` and `login` in `backend/src/routes/auth.rs` |
| `browser.dfy` | `Browser` | `localStorage` and `window.location` as mutable objects |
| `session_store.dfy` | `SessionStore` | `AuthProvider` in `frontend/src/contexts/AuthContext.tsx` |
| `gateway.dfy` | `Gateway` | `authFetch`, `checkUsage` and `recordUsage` in `frontend/src/utils/api.ts` |
| `keyword_recommendations.dfy` | `KeywordPicker` | `frontend/src/components/KeywordRecommendations.tsx` |
| `auth_form.dfy` | `AuthFormView` | `frontend/src/components/AuthForm.tsx` |
| `usage_stats.dfy` | `UsageStatsView` | `frontend/src/components/UsageStats.tsx` |
| `resume_scorer.dfy` | `ResumeScorerView` | `frontend/src/components/ResumeScorer.tsx` |

## How code with side effects is modelled

The database, JWT creation and verification, Argon2, the clock and the network
are all parameters:

- `now` is the clock.
- `verifyJwt`, `verifyPassword`, `hashed` and `createJwt` are the cryptography.
- `fetch` and `post` are the network.
- An optional error message is a failed SQL statement (`None` when it succeeds).

The backend handlers split into two parts. A pure function makes the decision,
such as `UsageGate.Decide` or `AuthRoutes.RegisterChecks`, and carries the
properties. A method then applies that decision to a `Database.Store`, and its
`ensures` ties the new tables to that function.

The frontend's React state becomes the fields of a class. Each handler is one
method that runs to the end of its `finally`. `localStorage` is a
`Browser.LocalStorage` object that is shared by reference.

## Where the model follows the code rather than the design

- **Malformed stored user.** The mount effect of `AuthProvider` does not fall
  back to "signed out" when the stored user is not JSON. `JSON.parse` throws
  after the token has already been set; see `SessionStore.Restore` and
  `SessionStore.RestoreMalformedUserThrows`.
- **`updateUser`.** It needs no active session.
- **401 handling.** A 401 in `authFetch` removes the stored entries and
  navigates, but leaves the provider's in-memory session alone.
- **Password length in the dialog.** The password field requires 8 characters
  in both login and register modes (`AuthFormView.AuthForm.CanSubmit`).
- **Toggling twice.** Toggling a selected keyword twice does not always restore
  the selection. It moves the keyword to the end. `KeywordPicker.ToggleTwicePresent`
  proves that the selection comes back unchanged exactly when that keyword was
  already last. `KeywordPicker.ToggleTwiceAbsent` proves that for a keyword that
  was not selected it always comes back.
- **Empty job title.** It matches the first table entry, because every key
  contains the empty string.

## Model

| member | source | states |
|---|---|---|
| Calendar.FirstOfNextMonth | backend/src/middleware/usage.rs:50-54 | the next reset is day 1 of a month at the same time of day as `now`, strictly after `now`; December rolls over to January of the following year |
| Calendar.FirstOfNextMonthIsEarliest | backend/src/routes/auth.rs:47-53 | no first-of-month moment at that time of day lies strictly between `now` and the computed reset date |
| Calendar.DecemberRollsOver | backend/src/routes/auth.rs:48-53 | every valid December moment resets on 1 January of the following year, at the same time of day |
| Database.FindById | backend/src/middleware/usage.rs:36-44 | the lookup by id returns a row of the table with that id, and `None` exactly when no row has it |
| Database.FindByEmail | backend/src/routes/auth.rs:84-92 | the lookup by email returns a row with that email, and `None` exactly when no row has it |
| Database.FindByIdUnique | backend/src/middleware/usage.rs:36-41 | with unique ids, the lookup by a row's id returns that row |
| Database.UpdateWhere | backend/src/middleware/usage.rs:56-60 | an `UPDATE ... WHERE id` changes exactly the rows with that id and keeps the length and order of the table |
| Database.UpdateWhereKeepsIds | backend/src/middleware/usage.rs:56-60 | an update that keeps ids keeps the primary key unique |
| Database.IncrementUsage | backend/src/middleware/usage.rs:85-90 | the increment fails exactly when a matching row is at the `i32` maximum; otherwise every matching row gains exactly 1 and the others are unchanged |
| Database.Store.constructor | backend/src/middleware/usage.rs:36-41 | a store holds the given tables with a unique primary key |
| Database.Store.ResetUsage | backend/src/middleware/usage.rs:56-63 | sets the counter to 0 and the reset date on the user's rows only; the log is unchanged |
| Database.Store.TouchLastLogin | backend/src/routes/auth.rs:107-113 | sets `last_login_at` on the user's rows only |
| Database.Store.Increment | backend/src/middleware/usage.rs:85-90 | either applies the increment to the table or reports failure and changes nothing |
| Database.Store.AppendLog | backend/src/middleware/usage.rs:93-99 | appends exactly one log row and leaves the users alone |
| Database.Store.InsertUser | backend/src/routes/auth.rs:56-70 | the insert succeeds exactly when the id is new, and then appends exactly that row |
| UsageGate.BearerToken | backend/src/middleware/usage.rs:21-29 | a missing or non-visible-ASCII header gives 401 "Missing auth token"; the token is given exactly when the header starts with `Bearer `, and is the rest of the header |
| UsageGate.Decide | backend/src/middleware/usage.rs:15-76 | header problems come before everything else: a bad header is rejected with the header's own error, and a token that fails JWT verification is a 401 with the verifier's message; a failing user query is a 500; a passing request has an authenticated user; a reset moves the date to the next first-of-month |
| UsageGate.Principal | backend/src/middleware/usage.rs:32-44 | the authenticated user is a row of the table |
| UsageGate.DecideAuthenticated | backend/src/middleware/usage.rs:47-75 | a reset date that has passed resets and passes without a limit check; otherwise 403 with limit and usage exactly when the count has reached the limit, else pass |
| UsageGate.DecideUnauthenticated | backend/src/middleware/usage.rs:21-44 | every failure before the user is found, including an unknown user, is a 401; this holds whenever the query did not fail, and also when a header or JWT failure comes before a failing query |
| UsageGate.ForbiddenIff | backend/src/middleware/usage.rs:64-72 | a 403 is returned if and only if the user is authenticated, the reset date lies ahead, and the count has reached the limit |
| UsageGate.CheckUsageLimit | backend/src/middleware/usage.rs:15-76 | returns the decision's error; a reset changes only the user's rows, and a failed reset is ignored; any other outcome leaves the tables unchanged |
| UsageGate.ResetThenPass | backend/src/middleware/usage.rs:48-75 | once reset, a user with a positive limit passes the next check at the same moment |
| UsageGate.RecordUsage | backend/src/middleware/usage.rs:79-102 | a failed increment writes nothing; otherwise the counter gains exactly 1, and exactly one log row with the action is appended unless the insert fails |
| AuthRoutes.RegisterInputError | backend/src/routes/auth.rs:20-27 | an email without '@' is a 400 before the password check; a password under 8 UTF-8 bytes is a 400; the input is valid if and only if neither happens |
| AuthRoutes.RegisterChecks | backend/src/routes/auth.rs:19-44 | input errors come first; a 409 happens if and only if the input is valid, the query succeeds and the email is taken; success means the email is new and hashing succeeded |
| AuthRoutes.NewUserRow | backend/src/routes/auth.rs:46-70 | the new row carries the request's email and name and the hash, and a reset date on day 1 of the next month at the same time of day |
| AuthRoutes.Register | backend/src/routes/auth.rs:15-77 | nothing is written unless every check passes; then exactly one row is appended; a JWT failure after the insert keeps the row; unique emails stay unique |
| AuthRoutes.RegisterAddsOne | backend/src/routes/auth.rs:56-70 | a successful registration adds exactly one user, found under the new email |
| AuthRoutes.LoginChecks | backend/src/routes/auth.rs:83-104 | a failed lookup and a verifier error are 500s with their messages; an unknown email and a wrong password both give "Invalid credentials"; a 403 happens if and only if the password verified and the account is inactive; success happens if and only if the lookup finds a user whose password verifies and who is active, and returns that stored row |
| AuthRoutes.LoginHidesWhichCheckFailed | backend/src/routes/auth.rs:84-99 | an unknown email and a wrong password get the identical response |
| AuthRoutes.Login | backend/src/routes/auth.rs:79-120 | nothing is written unless the checks pass; a failed `last_login_at` update does not fail the login; the response carries the row as read before that update |
| ResumeAnalyzer.TechTermsDistinct | backend/src/services/resume.rs:193-201 | the term table lists no term twice |
| ResumeAnalyzer.ExtractKeywordsFromText | backend/src/services/resume.rs:193-206 | exactly the table terms that occur in the text, in table order, with no duplicates |
| ResumeAnalyzer.ExtractKeywords | backend/src/services/resume.rs:134-158 | exactly the table entries whose word occurs in the text, as a subsequence of the table, importances unchanged and within [60, 90] |
| ResumeAnalyzer.MatchedWords | backend/src/services/resume.rs:162-169 | the count of matched JD words never exceeds the number of JD words |
| ResumeAnalyzer.Percent | backend/src/services/resume.rs:175 | the truncated percentage is at most 100; all of them gives 100 and none gives 0 |
| ResumeAnalyzer.Clamp | backend/src/services/resume.rs:176 | the clamped score lies in the range, and a value already inside is kept |
| ResumeAnalyzer.CalculateMatchScore | backend/src/services/resume.rs:161-177 | 50 when the JD has no words, otherwise within [30, 95] |
| ResumeAnalyzer.MatchScoreNeutral | backend/src/services/resume.rs:171-173 | the JD has no words if and only if it is all whitespace, and then the score is 50 |
| ResumeAnalyzer.MatchScoreIsPercentage | backend/src/services/resume.rs:165-176 | with words, the score is the truncated percentage of JD words found in the lower-cased résumé, clamped to [30, 95] |
| ResumeAnalyzer.MatchScoreExtremes | backend/src/services/resume.rs:165-176 | every JD word found gives 95; none found gives 30 |
| ResumeAnalyzer.CoveredKeywords | backend/src/services/resume.rs:180-184 | the covered count never exceeds the JD's table terms |
| ResumeAnalyzer.CalculateKeywordCoverage | backend/src/services/resume.rs:179-191 | 70 when the JD names no table term, otherwise at most 95 |
| ResumeAnalyzer.KeywordCoverageNeutral | backend/src/services/resume.rs:186-188 | a JD naming no table term scores 70 whatever the résumé |
| ResumeAnalyzer.KeywordCoverageFull | backend/src/services/resume.rs:179-191 | a résumé containing every table term its JD names scores the cap 95 |
| ResumeAnalyzer.ExtractCompany | backend/src/services/resume.rs:208-213 | 阿里巴巴 before 腾讯 before 字节, reported as 字节跳动; `None` exactly when none occurs |
| ResumeAnalyzer.ExtractPosition | backend/src/services/resume.rs:215-220 | 工程师 before 开发 before 经理; `None` exactly when none occurs; the result occurs in the JD |
| ResumeAnalyzer.CoverLetterPosition | backend/src/services/resume.rs:99 | the extracted position, or the fallback 该职位 when there is none |
| ResumeAnalyzer.CoverLetterHighlights | backend/src/services/resume.rs:129 | at most five lines, a prefix of the résumé's lines, and all of them when there are at most five |
| ResumeAnalyzer.GenerateCoverLetter | backend/src/services/resume.rs:97-131 | the letter opens with the fixed greeting and the position, and contains the highlights joined by newlines |
| ResumeAnalyzer.MessagesDistinct | backend/src/services/resume.rs:16-28 | the four advice messages are pairwise different |
| ResumeAnalyzer.Messages | backend/src/services/resume.rs:12-29 | the messages of the fired rules, one per rule, in the same order |
| ResumeAnalyzer.MessageIn | backend/src/services/resume.rs:12-29 | a rule's message is among the changes if and only if the rule fired |
| ResumeAnalyzer.AnyKeywordContainsTerm | backend/src/services/resume.rs:15 | for a table term, "some extracted keyword contains it" is the same as "the JD contains it" |
| ResumeAnalyzer.PythonRuleMeaning | backend/src/services/resume.rs:15-17 | the Python advice fires if and only if the JD mentions Python and the résumé does not |
| ResumeAnalyzer.TeamworkRuleMeaning | backend/src/services/resume.rs:19-21 | the teamwork advice fires if and only if the JD mentions 团队 and the résumé does not |
| ResumeAnalyzer.Fired | backend/src/services/resume.rs:12-29 | each rule is present if and only if its flag is set, in rule order |
| ResumeAnalyzer.FiredAdvice | backend/src/services/resume.rs:14-29 | each of the four rules fires if and only if its condition holds on the JD and résumé; fired rules keep rule order |
| ResumeAnalyzer.Optimize | backend/src/services/resume.rs:7-53 | the changes are the messages of exactly the rules that fire, in rule order; the match score is the match-score function; the report wraps the résumé and the changes |
| ResumeAnalyzer.OptimizeShortResumeAdvice | backend/src/services/resume.rs:23-25 | the short-résumé advice is present if and only if the résumé is under 500 UTF-8 bytes |
| ResumeAnalyzer.OptimizeAdviceOrdered | backend/src/services/resume.rs:12-29 | no message appears twice, and the messages keep rule order |
| ResumeAnalyzer.Categories | backend/src/services/resume.rs:59-80 | exactly four categories in fixed order: skills 85 if and only if 技能 or 技术 occurs, else 60; experience 80 or 50; the keyword coverage; layout 75 if and only if over 300 bytes, else 50 |
| ResumeAnalyzer.Score | backend/src/services/resume.rs:56-94 | the overall score is the match score, the categories are the four above, and the suggestions are the fixed four |
| Json.ParseStringify | frontend/src/contexts/AuthContext.tsx:34-42 | parsing the stringified text of any value gives that value back |
| Json.Get | frontend/src/components/AuthForm.tsx:35 | property access on an object yields the value of a member with that key, and `undefined` exactly when the value is not an object or no member has that key |
| Json.LastValue | frontend/src/components/AuthForm.tsx:39-40 | of duplicate keys the last one wins: the value found is that of a member with the key and no later member has it |
| Browser.LocalStorage.GetItem | frontend/src/contexts/AuthContext.tsx:29-30 | `null` exactly for a missing key, otherwise the stored text |
| Browser.LocalStorage.SetItem | frontend/src/contexts/AuthContext.tsx:41-42 | one entry is set and every other entry is kept |
| Browser.LocalStorage.RemoveItem | frontend/src/contexts/AuthContext.tsx:48-49 | one entry is removed and every other entry is kept |
| SessionStore.WithUser | frontend/src/contexts/AuthContext.tsx:54 | the stored user text parses back to the user, and every other entry is kept |
| SessionStore.AuthProvider.constructor | frontend/src/contexts/AuthContext.tsx:24-25 | the provider starts with no token and no user |
| SessionStore.AuthProvider.IsAuthenticated | frontend/src/contexts/AuthContext.tsx:61 | authenticated if and only if the token is present and non-empty |
| SessionStore.Restored | frontend/src/contexts/AuthContext.tsx:27-36 | the effect throws if and only if both entries are truthy and the stored user is not JSON, leaving the token set; with either entry falsy the session is unchanged; with both truthy and a user that parses, the result is exactly the session of the stored token and the parsed user |
| SessionStore.AuthProvider.Restore | frontend/src/contexts/AuthContext.tsx:27-36 | the mount effect, as the restore function describes it, including the throw; storage is not touched |
| SessionStore.AuthProvider.Login | frontend/src/contexts/AuthContext.tsx:38-43 | sets both fields, and writes the token and the stringified user |
| SessionStore.AuthProvider.Logout | frontend/src/contexts/AuthContext.tsx:45-50 | clears both fields and removes exactly the two entries |
| SessionStore.AuthProvider.UpdateUser | frontend/src/contexts/AuthContext.tsx:52-55 | replaces the user in memory and in storage; the token is untouched; no session is needed |
| SessionStore.RestoreNeedsBoth | frontend/src/contexts/AuthContext.tsx:32 | with either entry missing or empty, the session is left as it was |
| SessionStore.RestoreMalformedUserThrows | frontend/src/contexts/AuthContext.tsx:33-34 | a stored user that is not JSON throws, with the token already set and the user untouched |
| SessionStore.LoginThenRestore | frontend/src/contexts/AuthContext.tsx:27-43 | after a login with a non-empty token, the next mount restores the same token and user |
| SessionStore.LoginEmptyTokenNotRestored | frontend/src/contexts/AuthContext.tsx:32-41 | a login with an empty token is stored but not restored |
| SessionStore.UpdateUserThenRestore | frontend/src/contexts/AuthContext.tsx:52-55 | after `updateUser` with a token stored, the next mount restores that token with the new user |
| SessionStore.LogoutThenRestore | frontend/src/contexts/AuthContext.tsx:45-50 | after a logout the next mount changes nothing, and a second logout removes nothing more |
| Gateway.RequestHeaders | frontend/src/utils/api.ts:9-16 | the JSON content type unless the caller gives one; every caller header; `Bearer <token>` over any caller Authorization exactly when the token is truthy; no other headers |
| Gateway.BearerHeaderAccepted | frontend/src/utils/api.ts:15 | the header written for a visible-ASCII token is accepted by the usage middleware, which gives back that token |
| Gateway.AuthFetch | frontend/src/utils/api.ts:3-31 | only the headers of the options change; a 401 removes both entries and navigates to `/`; nothing else touches storage; the response is returned as received |
| Gateway.CheckUsage | frontend/src/utils/api.ts:34-38 | a default request whose body is parsed whatever the status; a rejected request or a body that is not JSON fails; a 401 drops the stored token and user and navigates to `/`, and any other outcome leaves storage and location unchanged |
| Gateway.UsageRecordBody | frontend/src/utils/api.ts:44 | the body parses to the object `{action}` |
| Gateway.RecordUsage | frontend/src/utils/api.ts:41-46 | a POST of `{action}`, succeeding exactly when the request does; a 401 drops the stored token and user and navigates to `/`, and any other outcome leaves storage and location unchanged |
| KeywordPicker.TableShape | frontend/src/components/KeywordRecommendations.tsx:8-99 | five titles, each with four categories of five keywords |
| KeywordPicker.LookupFrom | frontend/src/components/KeywordRecommendations.tsx:110-122 | a non-empty result is the categories of a table entry at or after the starting index whose title is related |
| KeywordPicker.Lookup | frontend/src/components/KeywordRecommendations.tsx:110-122 | a non-empty result is the categories of some table entry whose title is related |
| KeywordPicker.LookupIsFirstMatch | frontend/src/components/KeywordRecommendations.tsx:110-122 | the lookup gives the categories of the first related title in table order, and nothing exactly when no title is related |
| KeywordPicker.EmptyTitleMatchesFirst | frontend/src/components/KeywordRecommendations.tsx:112-113 | an empty title gets the first entry's categories |
| KeywordPicker.Toggled | frontend/src/components/KeywordRecommendations.tsx:125-131 | a keyword's membership flips and the others are kept; no duplicates are introduced; an absent keyword is appended at the end; removal keeps the order of the rest, and in a duplicate-free selection cuts out exactly the keyword's one position |
| KeywordPicker.RemoveAt | frontend/src/components/KeywordRecommendations.tsx:127-128 | filtering a keyword out of a duplicate-free selection containing it removes exactly its one position |
| KeywordPicker.ToggleTwiceAbsent | frontend/src/components/KeywordRecommendations.tsx:125-131 | toggling an unselected keyword twice restores the selection |
| KeywordPicker.ToggleTwiceMovesToEnd | frontend/src/components/KeywordRecommendations.tsx:125-131 | toggling a selected keyword twice gives the selection without it, followed by the keyword |
| KeywordPicker.ToggleTwicePresent | frontend/src/components/KeywordRecommendations.tsx:125-131 | toggling a selected keyword twice moves it to the end; the selection is restored if and only if it was last |
| KeywordPicker.CopyText | frontend/src/components/KeywordRecommendations.tsx:133-134 | an empty selection copies the empty text; every selected keyword occurs in the copied text |
| KeywordPicker.CopyAfterSelect | frontend/src/components/KeywordRecommendations.tsx:133-134 | the copied text is the selection joined by ", "; selecting one more keyword appends ", " and that keyword |
| KeywordPicker.KeywordRecommendations.constructor | frontend/src/components/KeywordRecommendations.tsx:102-104 | the view starts with an empty title, selection and recommendation |
| KeywordPicker.KeywordRecommendations.HandleJobTitleChange | frontend/src/components/KeywordRecommendations.tsx:106-123 | the loop with its flag and `break` sets the title and the lookup's categories, and leaves the selection alone |
| KeywordPicker.KeywordRecommendations.ToggleKeyword | frontend/src/components/KeywordRecommendations.tsx:125-131 | the selection becomes the toggled selection and stays free of duplicates |
| KeywordPicker.KeywordRecommendations.ClearSelected | frontend/src/components/KeywordRecommendations.tsx:139-141 | the selection is emptied and nothing else changes |
| AuthFormView.RequestBody | frontend/src/components/AuthForm.tsx:22-24 | the body carries the email and the password, and a name if and only if registering |
| AuthFormView.StoredUser | frontend/src/components/AuthForm.tsx:40 | the stored user text parses back to the user, or is "undefined" when the field is missing |
| AuthFormView.SubmitOutcome | frontend/src/components/AuthForm.tsx:26-44 | a rejected request fails with its message; success happens if and only if a 2xx body is non-null JSON; a non-2xx fails with the server's truthy `error` field, else "Authentication failed"; a success carries the response's token and user |
| AuthFormView.SuccessIsRestorable | frontend/src/components/AuthForm.tsx:39-42 | after a success with a non-empty string token and a user, the next mount restores exactly that session |
| AuthFormView.MissingUserBreaksRestore | frontend/src/components/AuthForm.tsx:40 | a success without a user stores "undefined", which the next mount fails to parse |
| AuthFormView.AuthForm.constructor | frontend/src/components/AuthForm.tsx:8-13 | the dialog opens in login mode with empty fields and no error |
| AuthFormView.AuthForm.HandleSubmit | frontend/src/components/AuthForm.tsx:15-48 | posts to the mode's endpoint; a failure shows its message and stores nothing; a success stores the token and user and reports them; loading ends false; the fields are kept |
| AuthFormView.Endpoint | frontend/src/components/AuthForm.tsx:21 | the login URL exactly in login mode, the register URL exactly in register mode |
| AuthFormView.AuthForm.CanSubmit | frontend/src/components/AuthForm.tsx:94-118 | no submission while loading, with an empty email, or with a password shorter than 8, in either mode |
| AuthFormView.AuthForm.ToggleMode | frontend/src/components/AuthForm.tsx:134-137 | flips the mode and clears the error, keeping the fields |
| UsageStatsView.Percentage | frontend/src/components/UsageStats.tsx:10 | the percentage times the limit is the count times 100; no usage is 0 and a full allowance is 100 |
| UsageStatsView.PercentageAbove | frontend/src/components/UsageStats.tsx:10 | the percentage exceeds a whole-number threshold if and only if count × 100 exceeds threshold × limit; it is at most 100 if and only if count ≤ limit |
| UsageStatsView.Remaining | frontend/src/components/UsageStats.tsx:11 | remaining plus used is the limit; remaining is negative if and only if the count exceeds the limit |
| UsageStatsView.BarBand | frontend/src/components/UsageStats.tsx:49-55 | red if and only if above 80 percent, yellow if and only if in (50, 80], green if and only if at most 50 |
| UsageStatsView.BarWidth | frontend/src/components/UsageStats.tsx:56 | never above 100; the percentage itself up to the limit, and 100 from the limit on |
| UsageStatsView.TierLabel | frontend/src/components/UsageStats.tsx:33 | a known tier's label, the raw tier otherwise |
| UsageStatsView.TierBadge | frontend/src/components/UsageStats.tsx:37 | a known tier's label, nothing otherwise |
| UsageStatsView.TierGradient | frontend/src/components/UsageStats.tsx:36 | a known tier's colours, the text "undefined" otherwise |
| UsageStatsView.ShowUpgrade | frontend/src/components/UsageStats.tsx:62 | the prompt shows if and only if the tier is "free" and usage is above 80 percent |
| UsageStatsView.UpgradeOnlyWhenRed | frontend/src/components/UsageStats.tsx:49-62 | the prompt only shows beside a red bar |
| ResumeScorerView.ScoreBand | frontend/src/components/ResumeScorer.tsx:43-47 | high if and only if ≥ 80, middle if and only if in [60, 80), low if and only if < 60 |
| ResumeScorerView.ScoreColor | frontend/src/components/ResumeScorer.tsx:43-47 | green text if and only if ≥ 80, yellow if and only if in [60, 80), red if and only if < 60 |
| ResumeScorerView.ScoreBg | frontend/src/components/ResumeScorer.tsx:49-53 | green background if and only if ≥ 80, yellow if and only if in [60, 80), red if and only if < 60 |
| ResumeScorerView.ColorAndBackgroundAgree | frontend/src/components/ResumeScorer.tsx:43-53 | the text colour and the background of any score are the same hue, that of its band |
| ResumeScorerView.ResumeScorer.constructor | frontend/src/components/ResumeScorer.tsx:17-20 | the view starts empty, with no result and not loading |
| ResumeScorerView.ResumeScorer.HandleScore | frontend/src/components/ResumeScorer.tsx:22-41 | an empty input alerts with nothing changed; otherwise the result is replaced only on success, a failure alerts, and loading ends false |

## Left out

- Database, cryptography, JWT and clock. The SQL text, the connection pool, Argon2 hashing and verification, and token encoding and decoding are parameters. So is `Utc::now()`. backend/src/utils/auth.rs is not part of this model.
- Email uniqueness in the database. Whether the `users` table has a unique constraint on email is not known. Register therefore appends under a new id only, and preserves unique emails when they already hold.
- Calendar limits. Leap seconds, chrono's year range, and the `unwrap` panics outside that range are not modelled.
- Floating point in the backend. `calculate_match_score` and `calculate_keyword_coverage` divide in `f64` and truncate. The model uses the exact integer `part * 100 / whole`, and float rounding can make the two differ by one.
- ResumeAnalyzer.CalculateMatchScore, ResumeAnalyzer.CalculateKeywordCoverage: the model lower-cases ASCII letters only; Rust's `to_lowercase` also maps non-ASCII letters, and those mappings are not modelled. Splitting on whitespace uses the full Unicode `White_Space` set, as `split_whitespace` does.
- Floating point in the usage card. The percentage is an exact `real`. Rounding can move the bar width by one unit in the last place, but not the comparisons with 50, 80 and 100.
- A usage limit of 0. Division by zero gives `Infinity` or `NaN` in JavaScript, and is not modelled: every UsageStats member requires a positive limit.
- JSON objects as JavaScript objects. `Json.Obj` is the list of members in text order: duplicate keys are kept, and `Stringify` writes them back unchanged. A JavaScript object keeps only the last duplicate and moves integer-like keys first, so for such a response body the user text stored on login differs from the browser's. Property access agrees, because `Json.LastValue` lets the last duplicate win. Likewise a stored user text `null` restores as `Some(Null)`, where the browser gets a `null` user.
- JSON numbers. Fractions, exponents and numbers beyond integers are not parsed or written. A `\u` escape naming a surrogate code unit is refused rather than combined into a pair, and characters outside the Basic Multilingual Plane are not modelled.
- Error texts from the JavaScript engine. The message of a `SyntaxError` from `JSON.parse` and of a `TypeError` from reading `null` varies by engine, and the model uses fixed texts.
- Header details. Headers passed as a `Headers` object or as pairs, and non-string header values, are not modelled. Header names are compared case-sensitively, as the object spread does.
- Prototype keys of `tierLabels`. A tier such as "constructor" reads an inherited property in JavaScript; the model treats it as unknown.
- AuthFormView.AuthForm.CanSubmit: the browser's `type="email"` format check is not modelled. `minLength` counts UTF-16 code units in the browser, but the model counts characters.
- Rendering. JSX, the clipboard write, `alert` (modelled only by its text), `console.error`, routing, and navigation beyond the `href` assignment are not modelled.
- Concurrency. Async interleaving of handlers and React's batching of state updates are not modelled: each handler is one sequential step.
- The thin views `ResumeOptimizer.tsx` and `CoverLetterGenerator.tsx` are not modelled. Each is only an empty-input guard around a request, the same as `ResumeScorerView.ResumeScorer.HandleScore`.
- Wiring and stubs. Routing, application state and the constant usage routes have no logic to model.
