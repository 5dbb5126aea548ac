# E-learning backend: a verified model of its decision logic

This project models the decision logic of an Express/Mongoose e-learning backend. The backend has courses with lessons, user accounts with JWT sessions, free and paid enrollments, per-lesson progress, and a Stripe checkout.

Each store is a class with a `seq` field:
- `EnrollmentController.Ledger` holds the enrollments;
- `CourseController.CourseStore` holds the catalogue;
- `AuthController.UserStore` holds the accounts.

MongoDB gives no order to a `find` or `findOne` without a sort. The model chooses to read a collection in insertion order: `findOne` is the first match (`Collections.FirstIndex`) and `find` is `Collections.Filter`. Where the store invariants (unique emails, unique ids, one enrollment per pair) leave at most one match, the choice makes no difference. Each handler's chain of early returns is a pure guard function, for example `FreeEnrollGuard`, `ProgressGuard` or `CreateCheckoutSession`. The mutating handlers are methods that call the guard and then make their single change:
- an insert-if-absent on (userId, courseId);
- a one-key `$set` of progress;
- a course insert, update or delete.

A reply is `Http.Reply`. It has three forms:
- `Ok(status, body)`;
- `Fail(status, message)`, which carries a status;
- `Thrown(message)`, an error that carries no status of its own.

Foreign code is passed in as parameters:
- JWT signing and verification are a `Jwt.Signer`. The one assumption about them is `Jwt.Sound`: an HS256 token signed with a non-empty secret verifies back to its claims (RFC 7519; HS256 is defined in section 3.2 of RFC 7518).
- bcrypt is an `AuthController.PasswordScheme`, assumed to accept a password against its own hash.
- zod's `.email()` and `.url()`, `slugify`, the `$regex` title match, `ObjectId.isValid` and the Stripe session call are also parameters.
- Database-assigned ids and `Date.now()` are parameters.

JavaScript truthiness is modelled on optional strings (`JsString.Truthy`): `undefined` and `""` are falsy. zod's `.min(n)` counts UTF-16 code units (`JsString.Utf16Length`).

## Model

| member | source | states |
|---|---|---|
| EnrollmentController.FreeEnrollGuard | src/controllers/enrollment.controller.js:9-22 | a missing courseId gives 400, an unknown course 404, and a priced course 403, in that order; it proceeds exactly for a found course with price <= 0 |
| EnrollmentController.PaidEnrollGuard | src/controllers/enrollment.controller.js:50-55 | every refusal is 400 "Invalid paid course"; it proceeds exactly for a found course whose price is not 0; no payment state is consulted |
| EnrollmentController.Ledger.Create | src/controllers/enrollment.controller.js:24-42 | atomic insert-if-absent on (userId, courseId): it inserts exactly when the pair is free and keeps one enrollment per pair |
| EnrollmentController.Ledger.EnrollInCourse | src/controllers/enrollment.controller.js:5-43 | guard refusals and a taken pair ("Already enrolled", 400) leave the ledger unchanged; otherwise exactly one record with isPaid false and empty progress is appended and returned with 201 |
| EnrollmentController.Ledger.EnrollPaidCourse | src/controllers/enrollment.controller.js:46-75 | the same, with isPaid true, for any priced course, whatever the payment state |
| EnrollmentController.ProgressGuard | src/controllers/enrollment.controller.js:105-143 | 400 for a bad payload, then 404 "Enrollment not found", 403 "Not authorized", 404 "Course not found", 403 "Payment verification required" and 400 "Invalid lesson", each in that order; a write happens exactly when the owner's enrollment, its course, access (free or paid) and a lesson `_id` all check out |
| EnrollmentController.SetProgress | src/controllers/enrollment.controller.js:146-149 | the `$set` of `progress.<lessonId>` on one enrollment; its properties are the SetProgress lemmas below |
| EnrollmentController.Ledger.UpdateProgress | src/controllers/enrollment.controller.js:105-155 | a refusal changes nothing; a write sets exactly `progress[lessonId] := completed` on the guarded enrollment and replies 200 |
| EnrollmentController.SetProgressTouchesOneKey | src/controllers/enrollment.controller.js:146-149 | the `$set` changes one key of one enrollment; every other key, field and enrollment is unchanged |
| EnrollmentController.SetProgressIdempotent | src/controllers/enrollment.controller.js:146-149 | writing the same key twice equals writing it once |
| EnrollmentController.SetProgressCommutes | src/controllers/enrollment.controller.js:146-149 | writes to two different lessons commute |
| EnrollmentController.RepeatedUpdateIsIdempotent | src/controllers/enrollment.controller.js:105-155 | repeating a successful progress update decides the same write and leaves the same ledger |
| EnrollmentController.SetProgressKeepsLedgerValid | src/controllers/enrollment.controller.js:146-149 | the progress write keeps one enrollment per pair and unique ids |
| EnrollmentController.InsertKeepsLedgerValid | src/controllers/enrollment.controller.js:25-40 | an insert the unique index lets through keeps one enrollment per pair and unique ids |
| EnrollmentController.SecondEnrollRefused | src/controllers/enrollment.controller.js:38-40 | after an insert the pair is taken, which the enroll methods answer with "Already enrolled" |
| EnrollmentController.FreeAndPaidPartition | src/controllers/enrollment.controller.js:18-22 | for a found course with non-negative price exactly one of the two enroll paths proceeds; price 0 is free-only and price > 0 is paid-only |
| EnrollmentController.FreeCourseCountsAsPaid | src/controllers/enrollment.controller.js:128-135 | a course with price 0 never yields "Payment verification required", whatever `isPaid` is |
| EnrollmentController.NonOwnerNeverWrites | src/controllers/enrollment.controller.js:108-121 | a caller who is not the owner never gets a write; with a well-formed payload the reply is 403 "Not authorized" |
| EnrollmentController.UnknownLessonNeverWritten | src/controllers/enrollment.controller.js:137-143 | a lesson id that is not a lesson `_id` of the course is never written; for the owner with access the reply is 400 "Invalid lesson" |
| EnrollmentController.Mine | src/controllers/enrollment.controller.js:79-91 | every listed entry is one of the caller's enrollments, paired with its existing course |
| EnrollmentController.MineComplete | src/controllers/enrollment.controller.js:79-91 | every enrollment of the caller whose course exists is listed |
| EnrollmentController.MineSkipsMissingCourses | src/controllers/enrollment.controller.js:89 | an enrollment whose course is gone is not listed |
| EnrollmentController.NewEnrollmentListed | src/controllers/enrollment.controller.js:79-91 | a newly inserted enrollment whose course exists is listed for its user |
| EnrollmentController.AllNewestFirst | src/controllers/enrollment.controller.js:93-103 | every enrollment, as a permutation, sorted by createdAt newest first |
| EnrollmentController.SameIdsSameIndex | src/controllers/enrollment.controller.js:114 | `findById` finds an enrollment at the same place in two ledgers that agree on ids |
| PaymentController.CreateCheckoutSession | src/controllers/payment.controller.js:7-55 | 400 no courseId, 404 unknown course, 400 "Course is free", 400 "Already enrolled", in that order, each before any provider request; a session is requested exactly when all pass, and the reply is 200 with the provider's URL |
| PaymentController.CheckoutLineItem | src/controllers/payment.controller.js:29-45 | one line item with quantity 1, currency "inr", unit_amount price * 100 and the course title; mode "payment", card only, customer email from req.user |
| PaymentController.CheckoutUrls | src/controllers/payment.controller.js:47-48 | the success URL is FRONTEND_URL, "/payment-success?courseId=" and the id; the cancel URL appends "/courses"; an unset FRONTEND_URL renders as "undefined" |
| PaymentController.CheckoutThenPaidEnrollSucceeds | src/controllers/payment.controller.js:11-27 | whenever a session is requested, the paid-enroll route would accept the course and the pair is free |
| PaymentController.RequestFor | src/controllers/payment.controller.js:29-49 | definition: the session request (payment mode, card, the caller's email, one INR line item of price × 100 paise, the success and cancel URLs built from FRONTEND_URL) |
| PaymentController.PricedCourseNeedsCheckout | src/controllers/payment.controller.js:29-49 | a priced course the caller has not enrolled in is refused by the free route with 403 and instead asks the provider for the checkout that `RequestFor` describes |
| PaymentController.IssuedSessionSendsNoEmail | src/controllers/payment.controller.js:32 | for a caller authenticated by a token from `generateToken`, the request has no customer email, since the token carries none |
| AuthMiddleware.SelectToken | src/middleware/auth.middleware.js:4-6 | definition: the cookie token when truthy, otherwise the second space-separated part of the Authorization header |
| AuthMiddleware.UserOf | src/middleware/auth.middleware.js:18-22 | definition: `req.user` from the claims, its id being `id || _id` |
| AuthMiddleware.Authenticate | src/middleware/auth.middleware.js:3-38 | no token gives 401 "Unauthorized"; a token that fails verification gives 401 "Invalid token"; success carries a truthy id; every refusal is 401 |
| AuthMiddleware.CookieTakesPrecedence | src/middleware/auth.middleware.js:4-6 | a truthy cookie token is used whatever the header says |
| AuthMiddleware.BearerHeaderToken | src/middleware/auth.middleware.js:4-6 | with no cookie, the token is the second space-separated word of the Authorization header |
| AuthMiddleware.SingleWordHeaderRefused | src/middleware/auth.middleware.js:6-13 | a header with no space yields no token and 401 "Unauthorized" |
| AuthMiddleware.ClaimFallback | src/middleware/auth.middleware.js:18-29 | the user id is the claim `id`, else `_id`; with neither the reply is 401 "Invalid token payload" |
| AuthMiddleware.Run | src/middleware/auth.middleware.js:3-38 | on success `req.user` is set and `next` is called exactly once; on failure the 401 response is written and `next` is not called; `req.user` is assigned whenever the token verifies |
| AuthMiddleware.IssuedTokenAuthenticates | src/utils/jwt.js:12-22 | a token from `generateToken`, sent as the cookie, authenticates with the same id and role |
| AuthMiddleware.IssuedBearerTokenAuthenticates | src/middleware/auth.middleware.js:4-6 | the same token sent as "Bearer <token>" authenticates alike |
| AuthMiddleware.IssuedTokenHasNoEmail | src/utils/jwt.js:13-16 | an authenticated user from an issued token has no email |
| Jwt.ClaimsOf | src/utils/jwt.js:13-16 | the claims are `id` (falling back to `_id`) and `role`, with no email |
| Jwt.GenerateToken | src/utils/jwt.js:3-23 | a missing JWT_SECRET refuses first, then a missing JWT_EXPIRES_IN; a token is produced exactly when both are set (every set JWT_EXPIRES_IN counts as parsable) |
| Jwt.IssuedWithConfiguredOptions | src/utils/jwt.js:12-22 | the token is signed with the configured secret and expiry and HS256 |
| Jwt.IssuedTokenVerifies | src/utils/jwt.js:12-22 | the issued token is compact and verifies under the configured secret to exactly its claims |
| AuthController.UserStore.Signup | src/controllers/auth.controller.js:7-50 | a missing field gives 400 and a known email gives 400 "User already exists", both leaving the store unchanged; otherwise exactly one account with the hash and the default role is appended, and the token issue replies 201 |
| AuthController.Issue | src/controllers/auth.controller.js:31-49 | a reply succeeds exactly when a token is issued; it holds the public user, never the hash, and the token cookie |
| AuthController.Login | src/controllers/auth.controller.js:53-96 | missing fields give 400; an unknown email or a wrong password gives 401 "Invalid credentials"; a known email with the matching password issues the token and replies 200 with its public user |
| AuthController.FailedLoginsLookAlike | src/controllers/auth.controller.js:62-74 | an unknown email and a wrong password get the identical reply |
| AuthController.LoginAfterSignup | src/controllers/auth.controller.js:23-31 | after a signup, a login with the same password issues a session for the new account |
| AuthController.SessionCookieAuthenticates | src/controllers/auth.controller.js:31-38 | the session cookie authenticates later requests as the account, with its role |
| AuthController.AppendKeepsUnique | src/controllers/auth.controller.js:16-29 | adding an account with a new email and id keeps both unique |
| AuthController.IndexByEmailAppend | src/controllers/auth.controller.js:62 | after adding an account with a new email, `findOne({ email })` finds it |
| AuthController.GetMe | src/controllers/auth.controller.js:99-113 | an absent or unknown id gives 404 "User not found"; a known id gives 200 with the public part of the account with that id |
| AuthController.GetMeFindsAccount | src/controllers/auth.controller.js:99-113 | with unique ids, `getMe` for any `req.user` carrying an account's id, whatever its role and email, returns 200 with that account |
| AuthController.MeAfterSession | src/controllers/auth.controller.js:99-113 | a stored account's session cookie passes the middleware, and `getMe` for the resulting `req.user` returns 200 with that account |
| AuthController.Logout | src/controllers/auth.controller.js:120-133 | the cookie "token" is overwritten with "" and expires at epoch 0; status 200 |
| AuthController.LogoutCookieIsNoCredential | src/controllers/auth.controller.js:120-127 | the emptied cookie is refused by the middleware like no credential |
| CourseController.GetCourses | src/controllers/course.controller.js:6-36 | a negative skip is refused; otherwise the page is exactly the window from `Skip(page, limit)` of the matches sorted newest first, meta holds the match count, page, limit and totalPages; every listed course is in the catalogue and matches the filter, newest first, at most abs(limit) of them |
| CourseController.CriteriaOf | src/controllers/course.controller.js:9-14 | definition: the conditional assignments that build the `query` filter |
| CourseController.Matches | src/controllers/course.controller.js:10-14 | definition: a document satisfies each condition of the filter, the category after the path's `trim` setter |
| CourseController.Skip | src/controllers/course.controller.js:16 | definition: `(page - 1) * limit` |
| CourseController.TotalPages | src/controllers/course.controller.js:33 | definition: `Math.ceil(total / limit)`, with no integer value for a zero limit |
| CourseController.QueryMeaning | src/controllers/course.controller.js:9-14 | category (compared after trimming) and difficulty filter only when truthy, price "free" means 0, "paid" means > 0, search filters titles only when truthy |
| CourseController.OtherPriceIgnored | src/controllers/course.controller.js:12-13 | any other price value adds no price filter |
| CourseController.EmptyParametersIgnored | src/controllers/course.controller.js:10-11 | an empty category or difficulty filters nothing |
| CourseController.DefaultListingIsTenNewest | src/controllers/course.controller.js:7-24 | without parameters every course matches and the reply holds the ten newest |
| CourseController.SkipSteps | src/controllers/course.controller.js:16 | page 1 skips 0, and each later page skips one more limit |
| CourseController.CeilDiv | src/controllers/course.controller.js:33 | `Math.ceil(a / b)`: the least q with q >= a / b, for either sign of b |
| CourseController.TotalPagesJustEnough | src/controllers/course.controller.js:33 | with limit > 0, totalPages * limit >= total and one fewer page is too few; 0 pages exactly when nothing matches |
| CourseController.EveryMatchOnItsPage | src/controllers/course.controller.js:16-33 | the i-th match is on page i / limit + 1, at position i % limit, and that page is within totalPages |
| CourseController.PagePastTheEndIsEmpty | src/controllers/course.controller.js:16-33 | a page past totalPages is empty |
| CourseController.Window | src/controllers/course.controller.js:21-22 | skip then limit: a contiguous slice of the sorted matches; limit 0 means no limit |
| CourseController.NormalizeFrom | src/controllers/course.controller.js:70-75 | keeps the count and each title, defaults contentHtml and videoUrl to "" when falsy, and uses the given order or the 1-based position |
| CourseController.DefaultOrdersArePositions | src/controllers/course.controller.js:74 | lessons without an order are numbered 1, 2, ... by position, so they pass `min: 1` |
| CourseController.ValidatedLessonsKeepTheirOrder | src/controllers/course.controller.js:70-75 | a lesson that passed the schema keeps its own order and title |
| CourseController.NormalizedLessonValidates | src/controllers/course.controller.js:70-75 | a normalised lesson with a non-blank title, order >= 1 and the "" URL default passes the lesson validators |
| CourseController.SuffixedSlug | src/controllers/course.controller.js:65-68 | a free slug is kept; a taken one becomes slug + "-" + the timestamp, which reads back from the suffix |
| CourseController.OwnSlugIsNoCollision | src/controllers/course.controller.js:96-100 | on update, the course's own slug is not a collision, though a plain lookup would find it |
| CourseController.GetCourseById | src/controllers/course.controller.js:38-51 | a malformed id and an unknown id both give 404 "Course not found"; success returns the course with that id |
| CourseController.CourseStore.CreateCourse | src/controllers/course.controller.js:53-90 | the stored course is the slugged, normalised, set draft; it is inserted with 201 exactly when it validates and its slug is free, otherwise an error without status leaves the store unchanged; the store stays valid |
| CourseController.ChooseSlug | src/controllers/course.controller.js:96-99 | definition: the slug, suffixed with "-" and the timestamp when taken |
| CourseController.Created | src/controllers/course.controller.js:53-87 | definition: the document `createCourse` stores, slug chosen against the collection, lessons normalised, setters applied |
| CourseController.PatchOf | src/controllers/course.controller.js:93-110 | definition: the `$set` an update writes, with a re-chosen slug when the title is truthy and normalised lessons when given |
| CourseController.Apply | src/controllers/course.controller.js:112-116 | definition: the stored document after the `$set`, the written paths through their setters |
| CourseController.PatchValidates | src/controllers/course.controller.js:112-116 | definition: `runValidators` on the written paths only |
| CourseController.CourseStore.UpdateCourse | src/controllers/course.controller.js:92-124 | invalid written paths fail before the lookup; an unknown id gives 404; success happens exactly when the written paths validate, the id is known and the patched slug is not taken by another course; success replaces only that course with the patched one; the store stays valid |
| CourseController.CourseStore.DeleteCourse | src/controllers/course.controller.js:126-134 | an unknown id gives 404 and changes nothing; otherwise that course alone is removed and is no longer found |
| CourseController.PatchKeepsWellFormed | src/controllers/course.controller.js:112-116 | a stored course that takes a patch passing `runValidators` is still well formed |
| CourseController.PatchTouchesOnlyGivenPaths | src/controllers/course.controller.js:112-116 | the id, createdAt and every path absent from the update (title, slug, description, category, difficulty, faculty, price, thumbnailUrl, lessons) are unchanged |
| CourseController.EmptyUpdateChangesNothing | src/controllers/course.controller.js:92-116 | an empty update body changes nothing |
| CourseController.EmptyTitleUpdateRejected | src/controllers/course.controller.js:95-101 | an empty title does not re-slug, and fails `required` |
| CourseController.NegativePriceUpdateRejected | src/controllers/course.controller.js:115 | a negative price passes the update schema but not `min: 0` |
| CourseController.AppendKeepsUnique | src/models/Course.js:76 | inserting a course with a new id and a free slug keeps ids and slugs unique |
| CourseController.AppendKeepsWellFormed | src/controllers/course.controller.js:77-87 | inserting a well-formed course keeps every stored course well-formed |
| CourseController.ReplaceKeepsUnique | src/models/Course.js:76 | replacing a course by one with the same id and a free slug keeps ids and slugs unique |
| CourseController.ReplaceKeepsWellFormed | src/controllers/course.controller.js:112-116 | replacing a course by a well-formed one keeps every stored course well-formed |
| CourseController.RemoveKeepsUnique | src/controllers/course.controller.js:127 | removal keeps ids and slugs unique and leaves no course with the removed id |
| CourseController.RemoveAt | src/controllers/course.controller.js:127 | the catalogue without the deleted position, the rest in order |
| CourseModel.Setters | src/models/Course.js:25-53 | definition: the `trim` and `lowercase` setters on title, slug, description, faculty, category and lesson titles |
| CourseModel.Validates | src/models/Course.js:3-71 | definition: `required`, `enum`, `min` and `match` on a course and its lessons |
| CourseModel.WellFormed | src/models/Course.js:3-71 | definition: a stored document, fixed by its setters and valid |
| CourseModel.FindCourse | src/controllers/enrollment.controller.js:13 | `Course.findById`: finds a catalogued course with that id, and nothing for an unknown or undefined id |
| CourseModel.SetLessons | src/models/Course.js:4-8 | the lesson setters trim each title and keep the count |
| CourseModel.SetSlugIsLowerAndTrimmed | src/models/Course.js:32-38 | a stored slug has no upper-case letter and no surrounding white space |
| CourseModel.SettersIdempotent | src/models/Course.js:25-74 | running the setters again changes nothing |
| CourseModel.SetThenValidateIsWellFormed | src/models/Course.js:25-74 | a document that validates after its setters is what the collection holds |
| CourseModel.BlankTitleRejected | src/models/Course.js:27-31 | an all-white-space title is trimmed to "" and fails `required` |
| CourseModel.NegativePriceRejected | src/models/Course.js:59-63 | a negative price fails `min: 0` |
| CourseModel.UnknownDifficultyRejected | src/models/Course.js:54-58 | a difficulty outside the three values fails the `enum` |
| CourseModel.LessonDefaultsValid | src/models/Course.js:3-23 | with a title and order >= 1, the lesson defaults ("" content and URL) pass |
| CourseModel.HttpUrlsAccepted | src/models/Course.js:13-17 | `http://` or `https://` followed by a character other than a line terminator passes the URL `match` |
| CourseModel.OtherSchemeRejected | src/models/Course.js:13-17 | a non-empty URL that starts with neither `http://` nor `https://` fails the URL `match`, and so does a bare scheme |
| CourseModel.FtpUrlRejected | src/models/Course.js:13-17 | example: an `ftp://` URL fails the URL `match` |
| CourseSchema.ParseLesson | src/validators/course.schema.js:3-8 | definition: `lessonSchema` (non-empty title, optional strings, numeric order) |
| CourseSchema.ParseCreate | src/validators/course.schema.js:10-25 | definition: `createCourseSchema` |
| CourseSchema.ParseUpdate | src/validators/course.schema.js:27-38 | definition: `updateCourseSchema`, every field optional |
| CourseSchema.ParseLessons | src/validators/course.schema.js:3-23 | an array is accepted exactly when every element passes the lesson schema |
| CourseSchema.LessonRoundTrip | src/validators/course.schema.js:3-8 | a lesson with a non-empty title reads back from its JSON form unchanged |
| CourseSchema.LessonsHaveTitleAndOrder | src/validators/course.schema.js:3-8 | each accepted lesson has a non-empty title and a numeric order |
| CourseSchema.CreateRequirements | src/validators/course.schema.js:10-25 | create needs the four descriptive strings non-empty, a known difficulty and a non-negative price if any |
| CourseSchema.CreateRejectsNegativePrice | src/validators/course.schema.js:20 | a negative price is rejected on create |
| CourseSchema.EmptyUpdateAccepted | src/validators/course.schema.js:27-38 | the empty update body is valid and sets nothing |
| CourseSchema.UpdateAcceptsNegativePriceAndEmptyTitle | src/validators/course.schema.js:29-34 | update accepts a negative price and an empty title |
| AuthSchema.PasswordRule | src/validators/auth.schema.js:3-7 | definition: at least 8 UTF-16 units, an upper-case letter, a digit |
| AuthSchema.ParseSignup | src/validators/auth.schema.js:9-18 | definition: `signupSchema`, the name trimmed |
| AuthSchema.ParseLogin | src/validators/auth.schema.js:20-25 | definition: `loginSchema` |
| AuthSchema.SignupPasswordRule | src/validators/auth.schema.js:3-7 | an accepted signup password has 8 characters, an upper-case letter and a digit |
| AuthSchema.PasswordRuleExamples | src/validators/auth.schema.js:3-7 | "Password1" passes; "password123", "Password" and "Pass1" fail |
| AuthSchema.SignupNameTrimmed | src/validators/auth.schema.js:11-14 | the accepted name is the trimmed input and has at least 2 characters |
| AuthSchema.ShortNameRejected | src/validators/auth.schema.js:11-14 | any body whose name is shorter than 2 characters after trimming is rejected |
| AuthSchema.PaddedShortNameRejected | src/validators/auth.schema.js:11-14 | "  a  " is rejected, since the length is counted after trimming |
| AuthSchema.LoginAcceptsEverySignupBody | src/validators/auth.schema.js:20-25 | every signup body is a valid login body with the same email and password |
| AuthSchema.PasswordWithoutUpperRejected | src/validators/auth.schema.js:5-8 | any body whose password has no upper-case letter is rejected by signup |
| AuthSchema.LoginHasNoCharacterClassRule | src/validators/auth.schema.js:23 | login accepts "abcdefgh", which signup rejects |
| EnrollmentSchema.ParseEnroll | src/validators/enrollment.schema.js:6-10 | definition: `enrollSchema` |
| EnrollmentSchema.ParseEnrollPaid | src/validators/enrollment.schema.js:15-20 | definition: `enrollPaidSchema` |
| EnrollmentSchema.ParseProgress | src/validators/enrollment.schema.js:25-30 | definition: `updateProgressSchema` |
| EnrollmentSchema.EnrollAcceptsIffCourseIdNonEmpty | src/validators/enrollment.schema.js:6-10 | an enroll body is accepted exactly when courseId is a non-empty string |
| EnrollmentSchema.PaidSchemaIsStricter | src/validators/enrollment.schema.js:15-20 | the paid schema accepts only enroll bodies, and needs a non-empty sessionId |
| EnrollmentSchema.PaidRouteNeedsNoSession | src/validators/enrollment.schema.js:6-20 | a body with no sessionId passes the enroll schema but not the paid one |
| EnrollmentSchema.ProgressBodyShape | src/validators/enrollment.schema.js:25-30 | a progress body has a non-empty lessonId and a boolean completed |
| EnrollmentSchema.ProgressRejectsStringBoolean | src/validators/enrollment.schema.js:28 | `completed: "true"` is rejected |
| Ordering.SortNewestFirst | src/controllers/course.controller.js:20 | sorted by createdAt, newest first, and a permutation of its input |
| JsString.TrimKeepsNoUpper | src/models/Course.js:32-38 | trimming a string without upper-case letters leaves none |
| JsString.TrimIdempotent | src/models/Course.js:30 | trimming twice equals trimming once |
| JsString.DecimalRoundTrip | src/controllers/course.controller.js:67 | the decimal rendering of a timestamp reads back as the timestamp |
| JsString.SplitJoin | src/middleware/auth.middleware.js:6 | splitting on a separator and joining back gives the input |

## Left out

- I/O and wiring are not modelled: the database connection, Express routing, CORS and cookie parsing. The route files are used only for the order of the middlewares. `src/app.js`, `src/config/db.js` and `src/config/stripe.js` are not part of this model.
- bcrypt, the HMAC-SHA256 signature and token expiry are abstract. The JWT clock is left out, so an expired token is just one that `verify` refuses.
- The Stripe client is a parameter: a request maps to a URL, or to nothing when the call throws.
- Mongoose casting is left out, and so are the CastError that `findById` throws for a malformed id on the update, delete and enrollment routes, on `createCheckoutSession` (`Course.findById(courseId)`) and on `getMe` (`User.findById`), and the `populate` projections. The model answers a malformed id there as an unknown one (404), where the source's CastError reaches the error middleware. `Mine` pairs each enrollment with the whole course. `getAllEnrollments` returns the records without the populated user and course fields.
- `getMyEnrollments` returns its entries in whatever order the database yields them. `Mine` lists them in ledger order, and its contract says only which entries are listed, not in what order.
- Concurrency and interleavings are not modelled. Each insert is atomic, as the unique index makes it.
- Prices are whole numbers, so `price * 100` is exact. Query-string parsing of `page` and `limit` into numbers, and fractional or non-numeric values, are left out.
- `Math.ceil` of a division by a zero limit (`Infinity` or `NaN`) is modelled as no value (`None`).
- Sorting ties on createdAt are broken one fixed way, where MongoDB gives no order.
- The `lowercase` setter is modelled for ASCII letters only. White space for `trim` is the full JavaScript set.
- The text of errors raised inside libraries (validation, duplicate key, negative skip, provider failure) is a stand-in.
- A progress key is modelled as opaque. A lessonId containing "." would name a nested path in the `$set`.
- Lessons replaced by an update get fresh `_id`s. Existing progress keys then name lessons that no longer exist; the model shows this but proves nothing about it.
- Enrollments of a deleted course are not removed. The model states only that they drop out of `getMyEnrollments`.
- `src/models/User.js`, `src/models/Enrollment.js`, `src/middleware/admin.middleware.js`, `src/middleware/validate.middleware.js`, the error middleware and `asyncHandler` are not part of this model. A status set on an error is assumed to be relayed as that status. The role of a new account is the model's default, a parameter of `UserStore`. A body that fails its schema is refused with 400 before the handler runs.
- `src/controllers/user.controller.js` (a plain query) and `src/seeds/createAdmin.js` (a one-off script) are not modelled.
- zod's `.email()` and `.url()`, `slugify`, `ObjectId.isValid` and the case-insensitive `$regex` are parameters, so nothing is proved about their behaviour.
- The slug lookups in `createCourse` and `updateCourse` compare stored slugs with the candidate after the `lowercase` and `trim` setters, as Mongoose applies them to query filters. The `getCourses` category filter is trimmed the same way. The title `$regex` is left abstract. If the suffixed slug is taken too, the insert or update is refused like any duplicate key.
- Jwt.GenerateToken: jsonwebtoken throws when JWT_EXPIRES_IN is set but is neither a number nor a duration string it can parse (`src/utils/jwt.js:18-22`). The model treats every set value as valid.
- Where the code and the repository's tests disagree, the code is modelled:
  - A malformed course id gives 404 (`GetCourseById`), not the 400 the test at `tests/auth.test.js:225` expects.
  - A progress update for `lessonId: "intro"` is refused with 400 "Invalid lesson", since only lesson `_id`s are valid (`UnknownLessonNeverWritten`).
  - The tests' password "password123" fails the signup rule, because it has no upper-case letter (`PasswordRuleExamples`).
- `updateProgress` validates the payload (400) before it checks ownership (403), and the model follows that order. A caller who is not the owner and sends a malformed payload therefore gets 400, as `NonOwnerNeverWrites` states.
- The positional default `order ?? i + 1` cannot take effect behind the schema, which requires a numeric order (`ValidatedLessonsKeepTheirOrder`). It is modelled on the handler's own input type.
