# Bootcamps API — a Dafny model of its request logic

The bootcamps service is an Express/Mongoose REST API. It stores bootcamps, the courses under them and user accounts, and its routes are guarded by token authentication and role checks. This project models the decision logic of that API:

- **The list middleware of every "get all" route** (`advancedResults`). It strips the control parameters, adds the `$` operator prefix to the serialised filter, turns the comma lists for select and sort into space lists, parses `page` and `limit` the way `parseInt(…) || default` does, and works out the skip/limit window and the `next`/`prev` links.
- **Authentication and role gating** (`isAuthenticated`, `authorize`).
- **The error boundary and the `ErrorResponse` object**, and what server.js does with a rejection nothing catches.
- **The guard sequences of the handlers** for bootcamps, courses and auth, run against an in-memory store.
- **The user schema's validation:** the email pattern, the role enumeration, the password length, exclusion of the password from reads, and the reset-token fields.

Pure logic is written as functions with lemmas.

The parts of the source that change state are written as imperative Dafny:
- **The handlers:** methods on a `Store` class whose fields are the stored bootcamps (a map keyed by id), courses and users (sequences in the order the store returns them). Each method is proved equal to an `…Outcome` function of the old state, and the properties are proved about those functions.
- **The removal of the control parameters:** a loop over a copy of the query map.
- **`isAuthenticated`:** writes `req.user`.
- **`getResetPasswordToken`:** writes the reset fields of a user document.

These are parameters rather than modelled:
- the JSON Web Token check;
- bcrypt;
- SHA-256 and the random bytes;
- the clock;
- `JSON.stringify`;
- the query execution (the documents a selection matches, in store order);
- the schema validators of bootcamps and courses;
- whether the uploaded file could be moved;
- the ids the store assigns.

Where the code and its design description differ, the model follows the code:
- **Page and limit values.** They are described as positive integers. The code passes any non-zero parsed value through, so `page=-1` gives a negative skip, and the store then refuses the query. The model states that refusal as `AdvancedResults.NegativeSkip`. Because the list middleware is not wrapped in `asyncHandler`, the refusal never reaches the error handler: it becomes an unhandled rejection, on which server.js closes the server (see Findings).
- **The operator rewrite.** It is described as acting on whole-word key suffixes. The code rewrites every whole-word `gt`, `gte`, `lt`, `lte` or `in` anywhere in the serialised text, in keys and values alike (`OperatorRewrite.RewriteConcat`).
- **Errors from the list middleware.** It is described as raising none. The negative skip above is one it can raise.

## Model

| member | source | states |
|---|---|---|
| Strings.Split | middleware/auth.js:13 | `split` on one character always gives at least one piece, and no piece contains the separator |
| Strings.JoinSplit | middleware/advancedResults.js:22 | splitting on `d` and joining with `e` is replacing every `d` by `e`, character for character |
| Strings.SplitJoinRoundTrip | middleware/advancedResults.js:22 | joining the pieces with the separator they were split on gives the text back |
| Strings.SplitFirstPiece | middleware/auth.js:13 | the first piece is the text before the first separator |
| Strings.SplitAfterFirst | middleware/auth.js:13 | a separator after a separator-free prefix starts the second piece, and the rest splits on its own |
| Strings.SplitWithoutSeparator | middleware/auth.js:13 | text without the separator is a single piece |
| OperatorRewrite.LeadingWord | middleware/advancedResults.js:14 | the longest prefix of `\w` characters: every character is a word character and the next one is not |
| OperatorRewrite.MatchIsWholeWord | middleware/advancedResults.js:14 | the operator pattern (`gt`, `gte`, `lt`, `lte` or `in` between word boundaries) matches at a word start exactly when the whole word there is an operator, and it matches that whole word (`gte`, never `gt` followed by `e`) |
| OperatorRewrite.UnrewriteRewrite | middleware/advancedResults.js:13-16 | deleting each `$` that stands before a whole-word operator restores the input, for every text |
| OperatorRewrite.NoBareOperator | middleware/advancedResults.js:13-16 | after the rewrite, no whole-word operator is left without a `$` before it |
| OperatorRewrite.RewriteLength | middleware/advancedResults.js:13-16 | the output is longer than the input by exactly the number of whole-word operators in it |
| OperatorRewrite.RewriteWithoutOperators | middleware/advancedResults.js:13-16 | text containing no whole-word operator is unchanged |
| OperatorRewrite.RewriteConcat | middleware/advancedResults.js:13-16 | text cut before a non-word character is rewritten piece by piece, so operators are found in keys and values alike |
| OperatorRewrite.RewriteOperatorWord | middleware/advancedResults.js:14-15 | each operator on its own becomes `$` plus that operator |
| OperatorRewrite.RewriteOtherWord | middleware/advancedResults.js:14 | a word that is not an operator is untouched, even when it has an operator as a prefix (`gtx`, `min`) |
| OperatorRewrite.RewriteExamples | middleware/advancedResults.js:13-16 | `gte` gives `$gte` |
| OperatorRewrite.RewriteNearMisses | middleware/advancedResults.js:13-16 | `gtx` and `min`, which contain an operator but are other words, stay as they are |
| NumberParsing.TrimStart | middleware/advancedResults.js:34 | the skipped prefix is JavaScript white space, and the rest starts with something else |
| NumberParsing.DigitPrefix | middleware/advancedResults.js:34 | the longest prefix of decimal digits |
| NumberParsing.ParseIntText | middleware/advancedResults.js:34-35 | the decimal text of any integer, followed by text that does not start with a digit, parses back to that integer |
| NumberParsing.ParseDigitsOf | middleware/advancedResults.js:34-35 | the digit scan stops at the first non-digit and yields the value of the run before it |
| NumberParsing.ParseIntDigits | middleware/advancedResults.js:34-35 | a run of digits followed by a non-digit parses to the value of the run |
| NumberParsing.ParseIntSigned | middleware/advancedResults.js:34-35 | a leading `-` negates the value of the digits after it |
| NumberParsing.ParseIntNoDigits | middleware/advancedResults.js:34-35 | with no digit after the white space and the sign, the result is `NaN` |
| NumberParsing.ParseIntTrailingText | middleware/advancedResults.js:34 | `"3abc"` parses to 3 |
| NumberParsing.ParseIntNegative | middleware/advancedResults.js:34 | `"-2"` parses to -2 |
| NumberParsing.ParseIntZero | middleware/advancedResults.js:35 | `"0"` parses to 0, a falsy value that the fallback to the default then replaces |
| NumberParsing.ParseIntNaN | middleware/advancedResults.js:34 | `"abc"` and `""` are `NaN` |
| AdvancedResults.FieldList | middleware/advancedResults.js:22 | the select/sort list is the request value with every `,` replaced by a space, and has the same length |
| AdvancedResults.Projection | middleware/advancedResults.js:21-24 | a projection exists exactly when `select` is given and not empty, and it is that value with commas turned into spaces |
| AdvancedResults.SortOrder | middleware/advancedResults.js:27-32 | the given `sort` with commas turned into spaces, or exactly `-createdAt` when `sort` is absent or empty |
| AdvancedResults.IntParam | middleware/advancedResults.js:34-35 | an absent parameter, `NaN` or 0 gives the default, any other parsed value is kept, and the result is never 0 |
| AdvancedResults.PaginationFor | middleware/advancedResults.js:48-61 | `next` exists exactly when `page*limit` is less than the total and is `{page+1, limit}`; `prev` exists exactly when `(page-1)*limit > 0` and is `{page-1, limit}` |
| AdvancedResults.Window | middleware/advancedResults.js:39 | skip/limit succeeds exactly when skip is non-negative; it returns the documents from `skip` on, in order, at most `limit` of them and all that are left when fewer remain |
| AdvancedResults.StripControlParams | middleware/advancedResults.js:3-8 | the copy keeps exactly the keys other than `select`, `sort`, `page` and `limit`, each with its value unchanged |
| AdvancedResults.AdvancedResults | middleware/advancedResults.js:1-70 | fails exactly when the skip is negative, and then with the store's error; otherwise `success` is true, `count` is the number of documents returned, the documents are the window of the matching ones, and the links count all stored documents |
| AdvancedResults.PageArithmetic | middleware/advancedResults.js:34-37 | page and limit are never 0; `endIndex - startIndex == limit`; for positive page and limit the skip is non-negative |
| AdvancedResults.Defaults | middleware/advancedResults.js:27-35 | without `page`, `limit` and `sort`: page 1, limit 20, skip 0, sort `-createdAt` |
| AdvancedResults.PageLimitExamples | middleware/advancedResults.js:34-35 | `page=3abc` is page 3, `page=-2` passes through as -2, and `limit=0` gives 20 |
| AdvancedResults.FilterParamsExact | middleware/advancedResults.js:3-8 | a key is in the filter exactly when it is in the query and is not a control parameter, and its value is unchanged |
| AdvancedResults.PagesTile | middleware/advancedResults.js:36-39 | pages 1 to n, taken in order, are exactly the first `n*limit` matching documents: none is skipped or repeated |
| AdvancedResults.PaginationExamples | middleware/advancedResults.js:48-61 | with 45 documents and limit 20: page 1 links to 2 only, page 2 links both ways, page 3 links back only |
| AdvancedResults.NextIgnoresFilter | middleware/advancedResults.js:38 | with nothing matching, the first page is empty and still links to a next page, because the total counts every stored document |
| AdvancedResults.NegativePageFails | middleware/advancedResults.js:36-39 | page -1 asks for a negative skip, which the store refuses |
| Documents.NewBootcamp | controllers/bootcamps.js:30-41 | the created bootcamp has the new id, the requester as `user`, the body's `photo`, and every other body path as given (the bootcamp schema is not modelled, see Left out) |
| Documents.MergeBootcamp | controllers/bootcamps.js:61-64 | every path in the body overwrites the stored one, every other path is kept, and the id stays |
| Documents.MergeBootcampIdempotent | controllers/bootcamps.js:61-64 | applying the same update twice is the same as applying it once |
| Documents.NewCourse | controllers/courses.js:47-58 | the created course has the new id, the bootcamp from the body and the requester as `user`, and it keeps exactly the body paths that models/Course.js declares, with their values |
| Documents.MergeCourse | controllers/courses.js:79-82 | a declared body path overwrites the stored one, an undeclared one is dropped, every stored path the body does not overwrite is kept with its value, and the id stays |
| Documents.MergeCourseIdempotent | controllers/courses.js:79-82 | applying the same course update twice is the same as applying it once |
| Store.FirstIndex | controllers/auth.js:31 | the position of the first document whose key (a course id, a user id, a user's email) is the one asked for, or none when no document has it |
| Store.CoursesOf | controllers/courses.js:15 | exactly the stored courses of the bootcamp: each result belongs to it, and each of its courses is included |
| Store.FindBootcamp | controllers/bootcamps.js:17 | a CastError exactly when the id is not an ObjectId; otherwise the bootcamp stored under the id, if there is one |
| Store.FindCourse | controllers/courses.js:70 | a CastError exactly when the id is not an ObjectId; otherwise the first course with the id |
| Store.FindUser | middleware/auth.js:27 | a CastError exactly when the id is not an ObjectId; otherwise the first stored user with the id, if any, with its name, email and role as stored and without the password |
| Store.CoursesOfAppend | controllers/courses.js:58 | a new course is appended to its bootcamp's listing, and the other listings are unchanged |
| Store.CoursesOfRemove | controllers/courses.js:102 | removing a course keeps the listing of every other bootcamp |
| Http.Succeed | controllers/bootcamps.js:22 | answers with the status and `{ success: true, … }` |
| Http.Fail | controllers/bootcamps.js:19-20 | passes to `next` an ErrorResponse with the given message and status |
| Http.PaginationJson | middleware/advancedResults.js:48-61 | the pagination object has a `next` member exactly when there is a next link and a `prev` member exactly when there is a previous one; each holds its link's `{ page, limit }`, and `next` comes first |
| ErrorResponses.NewErrorResponse | utils/errorResponse.js:2-5 | the message defaults to "Something went wrong" and the status to 500; supplied values are kept; an array message becomes its items joined by commas |
| ErrorResponses.Raise | utils/errorResponse.js:2-5 | `message` and `statusCode` are the ones supplied |
| ErrorResponses.CastError | middleware/errors.js:7 | the store's bad-id error is named CastError and has no status |
| ErrorResponses.DuplicateKeyError | middleware/errors.js:12 | the unique-index error has code 11000 and no status |
| ErrorResponses.ValidationError | middleware/errors.js:16 | the schema error is named ValidationError and carries the failed paths' messages |
| ErrorResponses.TypeError | middleware/auth.js:36 | reading a property of `null` gives a TypeError without status or code |
| ErrorHandler.HandleError | middleware/errors.js:3-26 | the overwriting chain of rules gives the same reply as the priority order validation, then duplicate, then cast, then the error's own status (500 without one); the body is always `{ success: false, error }` |
| ErrorHandler.CastErrorIs400 | middleware/errors.js:7-10 | a CastError gives 400 "Bootcamp not found with provided id." |
| ErrorHandler.DuplicateIs400 | middleware/errors.js:7-15 | code 11000 gives 400 "Duplicate value is provided", even when the error is also a CastError, because the last match wins |
| ErrorHandler.ValidationIs400 | middleware/errors.js:16-19 | a ValidationError gives 400 and lists the sub-errors' messages in order, joined by commas |
| ErrorHandler.OtherErrorsKeepStatus | middleware/errors.js:4-25 | any other error keeps its message and its own status, or gets 500 when it has none |
| EmailPattern.FirstAt | models/User.js:15 | the position of the first `@`, or the length of the text when there is none |
| EmailPattern.SepWordsShape | models/User.js:15 | the repeated group of a word character, or a `.` or `-` followed by one, holds exactly when every character is a word character, `.` or `-`, and every separator is followed by a word character |
| EmailPattern.DottedWordShape | models/User.js:15 | `\w+([.-]?\w+)*` holds exactly when the text starts and ends with a word character, uses only word characters, `.` and `-`, and never has two separators in a row |
| EmailPattern.AcceptedHasOneAt | models/User.js:15 | an accepted email has exactly one `@` and uses only word characters, `.`, `-` and `@` |
| EmailPattern.AcceptedShape | models/User.js:15 | the local part and the domain each start and end with a word character, never have two separators in a row, and the address ends with `.` and two or three word characters |
| EmailPattern.ShapeAccepted | models/User.js:15 | conversely, any local part and domain of that shape form an accepted email |
| EmailPattern.AcceptedExample | models/User.js:15 | `jo.d@ma.co` is accepted |
| EmailPattern.RejectedDoubleDot | models/User.js:15 | `j..d@ma.co`, with two separators in a row, is rejected |
| EmailPattern.RejectedLongSuffix | models/User.js:15 | `a@b.comm`, whose last piece has four letters, is rejected |
| UserModel.EmailError | models/User.js:10-18 | no email error exactly when the email is present and matches the pattern |
| UserModel.RoleError | models/User.js:19-23 | no role error exactly when the role is absent or is `user` or `publisher` |
| UserModel.PasswordError | models/User.js:24-29 | no password error exactly when the password is present and has at least 6 characters |
| UserModel.Collect | models/User.js:5-36 | validation fails exactly when some path's validator fails; every failing path's message is listed, and every listed message is one of a failing path, in path order (required paths `name`, `email`, `password` first, then `role`) |
| UserModel.ValidUserShape | models/User.js:5-36 | a new user is valid exactly when it has a name, a valid email, an allowed role or none, and a password of 6 or more characters; a valid user's role is `user` or `publisher`, and `admin` is always refused |
| UserModel.DefaultSelection | models/User.js:28 | an ordinary read has no password and is otherwise the stored user |
| UserModel.Hex | models/User.js:61 | hex text is two characters per byte |
| UserModel.UnhexHex | models/User.js:61 | the hex text determines the bytes |
| UserModel.UserDocument.GetResetPasswordToken | models/User.js:60-72 | from 20 random bytes, returns their 40-character hex text, stores the SHA-256 digest of that text and the expiry `now + 600000`, and changes nothing else |
| AuthMiddleware.IsAuthenticated | middleware/auth.js:6-32 | no token gives 401 "Not authorized to access the resource"; a failed verification or an unusable id leaves the request unanswered; otherwise `req.user` is the stored user the token names (null when it is gone) and the request passes on |
| AuthMiddleware.Authorize | middleware/auth.js:34-43 | passes exactly when the user's role is one of the roles; any other role gives 403 with the same message; a null user throws a TypeError |
| AuthMiddleware.BearerWins | middleware/auth.js:8-13 | with a `Bearer <token>` header the token is the second space-separated piece, whatever the cookie says |
| AuthMiddleware.CookieFallback | middleware/auth.js:8-16 | the cookie is used only when the header is absent or does not start with "Bearer" |
| AuthMiddleware.BearerWithoutToken | middleware/auth.js:9-22 | the headers `Bearer` and `Bearer  x` carry no token, and then the cookie is not read |
| AuthMiddleware.WritersAmongRegistered | routes/bootcamps.js:30 | of the users registration can create, only publishers pass the `publisher`/`admin` gate |
| BootcampsController.LastIndexOf | controllers/bootcamps.js:152 | the position of the last occurrence of the character, or none when it does not occur |
| BootcampsController.Extension | controllers/bootcamps.js:152 | the extension is empty or is the part of the name from its last `.`; it is empty only when no `.` follows the first character |
| BootcampsController.LastIndexAfter | controllers/bootcamps.js:152 | a character followed by text without it is the last occurrence |
| BootcampsController.PhotoNameExtension | controllers/bootcamps.js:152 | the stored name is `photo_` + id + the text from the last `.` of the uploaded name; a name whose only `.` is its first character has no extension |
| BootcampsController.GetBootcamps | controllers/bootcamps.js:9-11 | answers 200 with the prepared envelope, unchanged |
| BootcampsController.GetBootcamp | controllers/bootcamps.js:16-23 | a bad id gives a CastError; an unknown id gives 404; otherwise 200 with the bootcamp |
| BootcampsController.CreateBootcampOutcome | controllers/bootcamps.js:28-43 | a non-admin who already owns a bootcamp gets 400; otherwise a body the validators refuse gets their error, and a taken id the duplicate-key error, each with the store unchanged; it succeeds exactly when that rule, the validators and the id allow; on success the one new bootcamp has the requester as `user` and the reply is 201 with it |
| BootcampsController.UpdateBootcampOutcome | controllers/bootcamps.js:48-66 | as written: a missing lookup result gives 404; a result the requester may not modify gives 403; that ownership check is made on the lookup result, while the update goes to the requested id: a CastError for a bad id, then the validators' error for a body they refuse, then 201 with `null` for an id that is not stored, and otherwise 201 with the body merged into that bootcamp |
| BootcampsController.UpdateBootcampByIdOutcome | controllers/bootcamps.js:48-66 | with the lookup by id: a CastError, 404 before the ownership check, 403 for someone who is neither owner nor admin, then the validators' error, each with the store unchanged; it answers 201 exactly when the bootcamp exists, the requester may modify it and the body passes, and then the body is merged into that bootcamp |
| BootcampsController.DeleteBootcampOutcome | controllers/bootcamps.js:71-87 | CastError, 404 and 403 leave the store unchanged; a permitted delete removes exactly that bootcamp, keeps every other one and answers 201 with `data {}` |
| BootcampsController.PhotoUploadOutcome | controllers/bootcamps.js:116-166 | the checks in order: bad id, 404, 403, no files (400), no `file` entry (TypeError), type not `image/` (400), size over 1000000 (400), failed move (500); success stores the photo name as the only change and answers 202 with it |
| BootcampsController.CreateBootcamp | controllers/bootcamps.js:28-43 | the reply and the new bootcamps are those of `CreateBootcampOutcome`; courses and users are untouched; bootcamps stay keyed by their ids |
| BootcampsController.UpdateBootcamp | controllers/bootcamps.js:48-66 | the reply and the new bootcamps are those of `UpdateBootcampOutcome`, the handler as written |
| BootcampsController.DeleteBootcamp | controllers/bootcamps.js:71-87 | the reply and the new bootcamps are those of `DeleteBootcampOutcome` |
| BootcampsController.BootcampPhotoUpload | controllers/bootcamps.js:116-166 | the reply and the new bootcamps are those of `PhotoUploadOutcome` |
| BootcampsController.OneBootcampPerPublisher | controllers/bootcamps.js:33-39 | after one successful create by a non-admin, every later create by the same requester gets 400 and changes nothing |
| BootcampsController.AdminMayAlwaysCreate | controllers/bootcamps.js:33-42 | an admin is never refused for owning bootcamps: with a valid body and a fresh id the reply is 201 |
| BootcampsController.OnlyOwnerOrAdminWrites | controllers/bootcamps.js:57-126 | in update by id, delete and photo upload, a requester who is neither the owner nor an admin never changes the stored bootcamps |
| BootcampsController.UpdateChecksAnotherBootcamp | controllers/bootcamps.js:49-61 | as written, a requester allowed to modify the bootcamp the lookup returned updates a bootcamp they do not own, which the lookup by id refuses with 403 |
| BootcampsController.PhotoSizeBoundary | controllers/bootcamps.js:144-150 | a file of exactly 1000000 bytes is accepted, and one of 1000001 bytes gets 400 (the message says 100000) |
| CoursesController.GetCourses | controllers/courses.js:11-24 | under a bootcamp: exactly its courses, counted under the key `coount`; without one: the prepared envelope |
| CoursesController.GetCourse | controllers/courses.js:29-41 | a bad id gives a CastError; an unknown id gives 404; otherwise 200 with the course |
| CoursesController.AddCourseOutcome | controllers/courses.js:46-64 | the bootcamp comes from the body; absent or unknown gives 404, a bad id a CastError, a requester who is neither owner nor admin 403, then the validators' error and a duplicate id, none of which creates a course; it succeeds exactly when none of these applies, and then appends one course with the requester as `user` and answers 202 |
| CoursesController.UpdateCourseOutcome | controllers/courses.js:69-88 | CastError, 404, 403 and then the validators' error leave the courses unchanged; it succeeds exactly when the course exists, the requester may modify it and the body passes, and then merges the body into that course only and answers 202 |
| CoursesController.DeleteCourseOutcome | controllers/courses.js:93-107 | CastError, 404 and then 403 leave the courses unchanged; success removes exactly that course and answers 202 with `{ success: true }` |
| CoursesController.AddCourse | controllers/courses.js:46-64 | the reply and the new courses are those of `AddCourseOutcome`; bootcamps and users are untouched |
| CoursesController.UpdateCourse | controllers/courses.js:69-88 | the reply and the new courses are those of `UpdateCourseOutcome` |
| CoursesController.DeleteCourse | controllers/courses.js:93-107 | the reply and the new courses are those of `DeleteCourseOutcome` |
| CoursesController.AddCourseIgnoresRoute | controllers/courses.js:47 | the route's bootcamp id plays no part in adding a course |
| CoursesController.AddedCourseListed | controllers/courses.js:46-64 | an added course is listed under its bootcamp after the courses already there, and other bootcamps' listings are unchanged |
| CoursesController.DeleteKeepsOtherListings | controllers/courses.js:102 | deleting a course leaves every other bootcamp's listing unchanged |
| AuthController.RegisterOutcome | controllers/auth.js:9-18 | validation errors are passed on; a valid input whose email or id is already stored gets the duplicate-key error (answered 400 by the error handler); registration succeeds exactly when the input is valid and the email and id are new; success appends one user with the hashed password and a role of `user` or `publisher`, and answers 201 through the token response |
| AuthController.Login | controllers/auth.js:23-41 | a missing email or password gives 400; an unknown email and a wrong password both give 401 "Invalid credentials."; it succeeds exactly when the first user with the email has a matching password, and then answers 201 for that user |
| AuthController.GetLoggedinUser | controllers/auth.js:46-50 | a null `req.user` throws; otherwise 200 with the user read again by id, without the password |
| AuthController.WithResetFields | models/User.js:64-70 | only the reset token digest and the expiry `now + 600000` change |
| AuthController.ForgotPasswordOutcome | controllers/auth.js:55-66 | an unknown email gives 400; a known one saves the reset fields on that user and answers 200 with the user without password |
| AuthController.LogoutAsWritten | controllers/auth.js:71-77 | as written: 200 with `data {}`, cookie `token` set to `none` for ten seconds, not HTTP-only |
| AuthController.Logout | controllers/auth.js:71-77 | as intended: the same reply with an HTTP-only cookie |
| AuthController.Register | controllers/auth.js:9-18 | the reply and the new users are those of `RegisterOutcome`; bootcamps and courses are untouched |
| AuthController.ForgotPassword | controllers/auth.js:55-66 | the reply and the new users are those of `ForgotPasswordOutcome`, built through `getResetPasswordToken` on the loaded document |
| AuthController.FailedLoginsAlike | controllers/auth.js:31-39 | an unknown email and a wrong password get the identical reply, 401 |
| AuthController.MissingCredentialsFirst | controllers/auth.js:26-28 | missing credentials give 400 whatever users are stored |
| AuthController.RegisterThenLogin | controllers/auth.js:9-41 | after a successful registration, logging in with the same email and password answers 201 for the new user |
| AuthController.EmailIndexAppend | controllers/auth.js:31 | an appended user with a new email is the one found by that email |
| AuthController.ResetTouchesOneUser | controllers/auth.js:55-66 | a reset changes only the user with the email, keeps that user's password, and shows no password in the reply |
| Server.ListAsWritten | middleware/advancedResults.js:1-45 | as written: a query whose skip is non-negative passes on to the next handler; one whose skip is negative leaves the request unanswered and closes the server |
| Server.List | middleware/advancedResults.js:1-45 | wrapped in `asyncHandler`: a negative skip is answered 500 with the store's message, and the server always keeps running |
| Server.NegativePageStopsServer | middleware/advancedResults.js:34-37 | `?page=-1` without a limit is page -1 with limit 20, which asks for skip -40 |
| AuthController.LogoutCookieFlag | controllers/auth.js:72-75 | the cookie as written is not HTTP-only, the intended one is, and the two replies differ only in that flag |

## Left out

- Express routing, `asyncHandler`, `seeder.js`, the logging calls and `server.js` apart from its `unhandledRejection` listener (modelled in `Server`): wiring and output, with no decisions in them. The role list of the write routes is the constant `AuthMiddleware.WriterRoles`.
- `getBootcampsInRadius`: a geocoder network call and floating-point radius arithmetic.
- The `getAverageCost` aggregate of models/Course.js and its save and remove hooks are not modelled. Those hooks write `averageCost` into the course's bootcamp, so `CoursesController.AddCourse` and `CoursesController.DeleteCourse` leaving the bootcamps unchanged is a simplification of the program; the course validators are a parameter, and the course's declared paths are `Documents.CoursePaths`. Its defaults (`scholarshipAvailable`, `createdAt`) are not filled in.
- models/Bootcamps.js is not part of this model; the bootcamp validators are a parameter.
- `Documents.NewBootcamp`, `Documents.MergeBootcamp`: every body path is kept, because the paths the bootcamp schema declares, beyond the ones these handlers read, are not known. Under strict mode Mongoose would drop the undeclared ones.
- `BootcampsController.DeleteBootcamp`: deleting a bootcamp is modelled with no cascade. The courses are left as they are, since any remove hook of the bootcamp schema is not known.
- utils/sendTokenResponse.js is not part of this model. Register and login end in the `TokenResponse` reply, which carries the status and the user.
- The pre-save hashing hook, with its missing `return` after `next()`: the stored password is the `hash` parameter applied to the supplied one. bcrypt's comparison is a parameter too, except for its refusal of a missing hash.
- JSON Web Token signing and verifying is a parameter. So are `crypto.randomBytes`, SHA-256 and `Date.now`.
- `JSON.stringify`, `JSON.parse` and the query-string parser are parameters. Query values that are arrays or nested objects are not modelled (the query is a map from string to string), nor are body values that are not strings.
- Query execution is modelled as a parameter yielding the matching documents in order; population and projection are passed on in the selection, not applied. The populate in `getCourse` is not modelled.
- `AdvancedResults.Window`: the store's treatment of a negative skip (an error) and of a negative limit (its absolute value) is a stated assumption about the database.
- ObjectIds are modelled in their 24-hex-digit string form only; the 12-byte form that the store also accepts is not.
- `Store.FindBootcamp`, `Store.FindCourse`, `Store.FindUser`, `Store.CoursesOf`: ids are compared as strings. Mongoose casts hex digits of either case to the same ObjectId, so a stored id written with other letter case is found by the program (in get, update, delete and photo upload of a bootcamp, in get, update and delete of a course, in the body `bootcamp` of a new course, and in the course listing of a bootcamp), while the model treats it as an unknown id.
- `BootcampsController.Extension`: `path.parse` is reduced to the text from the last `.` of the name that is not its first character. Directory parts are not modelled, and neither is Node's special case for `..`, whose extension Node gives as empty where the model gives `.`.
- `NumberParsing.ParseInt`: JavaScript numbers are IEEE doubles, while the model's parsed integers are exact. They agree below 2^53. Beyond it `parseInt` rounds (`"9007199254740993"` gives 9007199254740992), and a run of more than about 309 digits gives `Infinity`. So `NumberParsing.ParseIntText` holds for the program only below 2^53.
- `AdvancedResults.PageArithmetic`: page, limit, skip, the start and end indexes and the counts are exact integers in the model. The program's `(page - 1) * limit` and `page * limit` are doubles, which match only below 2^53.
- `UserModel.Collect`: Mongoose's order of the failed paths is taken to be the required paths in declaration order, then the others, and each path contributes its first failing validator.
- `Server.List`, `Server.ListAsWritten`: the request that goes on to the next handler is not followed further; the pending requests that `server.close` waits for are not modelled.
- `AuthMiddleware.IsAuthenticated`: the `catch` that builds an error without passing it on is modelled as a request that is never answered.
- The un-awaited `bootcamp.remove()` is modelled as completed before the reply. The `file.mv` callback is modelled as a step in sequence, with its success as a parameter. Concurrency between requests is not modelled.
- `AuthController.ForgotPasswordOutcome`: a request with no email at all is not modelled; the email is taken as a string.
- `AuthController.GetLoggedinUser`: the case of a loaded user whose id is not an ObjectId, which the store never produces, is not stated.

## Findings

| source | as written | input that shows it | evidently intended | confidence | as-written member | corrected member |
|---|---|---|---|---|---|---|
| controllers/bootcamps.js:49 | `findOne({ id })` queries a path the schema does not have, so the ownership check is made on whatever document it returns, while `findByIdAndUpdate` updates the bootcamp with the requested id | a publisher who owns the bootcamp the lookup returns, updating a bootcamp owned by someone else: the update goes through (lemma `UpdateChecksAnotherBootcamp`; `OnlyOwnerOrAdminWrites` proves the corrected handler refuses it) | look up by `findById(req.params.id)` as the other handlers do, so only the owner or an admin can update | not executed | BootcampsController.UpdateBootcampOutcome | BootcampsController.UpdateBootcampByIdOutcome |
| middleware/advancedResults.js:1-45 | the list middleware is a bare `async` function, so the store's refusal of a negative skip at `await query` is never passed to `next`; it becomes an unhandled rejection, and server.js:67-71 closes the server | any client sending `GET /api/v1/bootcamps?page=-1`, which asks for skip -40 (lemma `NegativePageStopsServer`): the request is not answered and the server stops | wrap the middleware in `asyncHandler`, so the error handler answers 500 and the server keeps running | not executed | Server.ListAsWritten | Server.List |
| controllers/auth.js:74 | the logout cookie option is spelled `httpsOnly`, which the cookie writer ignores | any logout: the cookie is not HTTP-only (lemma `LogoutCookieFlag`) | `httpOnly: true` | not executed | AuthController.LogoutAsWritten | AuthController.Logout |

The store method `BootcampsController.UpdateBootcamp` keeps the handler as written, with the lookup result as a parameter, so that the quirk stays visible. The ownership properties are proved about the corrected `UpdateBootcampByIdOutcome`.
