# risevest core, modelled in Dafny

This project models the core of a small social-posting API: user
accounts, posts and threaded comments. The API sits behind token
authentication. A queue carries notification messages to an e-mail
dispatcher. The model covers:

- **Errors** (`error.dfy`): the seven error constructors and their status
  and code table. It also covers the three-way response selector (validation
  failure, known error, anything else) and the loop that joins validation
  messages with newlines.
- **Authentication middlewares** (`authenticate.dfy`): bearer-token
  extraction with JavaScript's `startsWith`/`split` semantics and token
  decoding. `protect` writes the verified user into the response, and the
  API-key and admin gates are included.
- **Request schemas** (`validation.dfy`): each schema is an acceptance
  function from a request body to the normalised value. That means
  trimming, lower-casing, defaults, refusal of unknown keys, and the
  password pattern with its look-aheads, which stop at the first line
  terminator.
- **Notification dispatch** (`notify.dfy`, `messages.dfy`): a decoded
  message is mailed exactly when `notifyBy` is an array that includes
  "email". Destructuring a nullish message throws. A send failure is
  re-thrown unchanged. The queue is a class whose `SendMessage` appends
  when it is online.
- **The database** (`store.dfy`): the users, posts and comments tables as
  sequences in a `Database` class. Lookups are first-match searches. The
  invariant `Consistent` states unique keys, unique e-mails and foreign
  keys that refer to existing rows.
- **Post service** (`post_service.dfy`) and **account service**
  (`auth_service.dfy`):
  - each state-changing operation (`CreatePost`, `CreateComment`,
    `Register`, `Login`) is a method on a service class that changes the
    database in place;
  - each of those methods is proved against a pure check function and
    keeps `Consistent`;
  - the read-only operations are functions of the tables;
  - the listings state the query they issue (filter, limit, offset) and
    how the rows and count they get back are shaped (`pagination.dfy`).
- **Strings** (`strings.dfy`): the JavaScript string operations the
  above rely on. These are `indexOf`, `lastIndexOf`, `split` with a
  non-empty separator (with `join` as its inverse), `trim` over the
  ECMAScript whitespace set, and ASCII `toLowerCase`.

The following are parameters of the model, not parts of it:

- token signing and verification (`jsonwebtoken`);
- password hashing and comparison (`bcrypt`);
- the mailer (`sendMail`);
- the listing queries (`findAndCountAll`) and the rows of the ranking
  query;
- fresh UUIDs and timestamps;
- the schema library's e-mail and UUID format checks.

## Model

| member | source | states |
|---|---|---|
| Errors.ConstructorTable | src/error.ts:5-31 | each of the seven constructors builds the error with its fixed status and code and keeps the message as given |
| Errors.ErrorOfDeterminesKind | src/error.ts:5-45 | every constructed error has a 4xx status, and two constructed errors are equal exactly when kind and message are |
| Errors.FormatCelebrateErrors | src/error.ts:78-87 | the loop builds `Accumulated(details)`: each detail appended, with a newline only after a non-empty message so far |
| Errors.AccumulatedEmptyIff | src/error.ts:78-87 | the joined message is empty exactly when every detail message is empty |
| Errors.AccumulatedIsJoin | src/error.ts:78-87 | when no detail is empty, the message is the details joined by "\n", with no leading or trailing newline |
| Errors.HandleError | src/error.ts:47-76 | validation errors give 400 with the joined messages; known errors give their own status with code and message separated by a vertical bar; anything else gives 500 with name and message separated the same way |
| Errors.KnownErrorResponse | src/error.ts:47-54 | every constructor's error reaches the client with the table's status (always 4xx) and its code and message separated by a vertical bar |
| Messages.MessageQueue.SendMessage | src/services/auth.service.ts:58-67 | a message is accepted exactly when the queue is online, and only then appended to the queue's messages |
| Notify.IncludesString | src/processor/notify.ts:8 | `includes` holds exactly when the array holds the string |
| Notify.Notify | src/processor/notify.ts:6-17 | at most one send; a send happens exactly when the message is not nullish and `notifyBy` is an array containing "email"; the send carries the message's email, data, template and subject; it throws exactly for a nullish message or a failed send, and re-throws the send's error unchanged |
| Notify.RepeatedEmailSendsOnce | src/processor/notify.ts:8 | "email" listed any number of times still gives exactly one send |
| Notify.UnknownChannelIsSkipped | src/processor/notify.ts:8-12 | `notifyBy` of ["sms"] sends nothing and completes without error |
| Notify.NonArrayChannelIsSkipped | src/processor/notify.ts:8 | a `notifyBy` that is not an array sends nothing and completes |
| Authenticate.GetAuthToken | src/middlewares/authenticate.ts:26-35 | a "Bearer " header gives the text up to the next space; any other header is taken whole; a missing or empty token is refused with 401 "Auth token is required" |
| Authenticate.BearerField | src/middlewares/authenticate.ts:28-30 | the second space-separated field of a "Bearer " header is the text after the prefix up to the next space |
| Authenticate.BearerTokenExtracted | src/middlewares/authenticate.ts:26-35 | "Bearer t" yields exactly `t` for any non-empty `t` without spaces |
| Authenticate.EmptyBearerTokensRefused | src/middlewares/authenticate.ts:26-35 | "Bearer " alone, and "Bearer " followed by a second space, are refused as missing tokens |
| Authenticate.DecodeToken | src/middlewares/authenticate.ts:37-45 | succeeds exactly when verification yields claims, and returns those claims; every failure is 401 "Error occured while validating token" |
| Authenticate.Protect | src/middlewares/authenticate.ts:14-24 | on a token that extracts and verifies, the verified user is stored and `next` is called; otherwise the extraction or verification error is thrown and the stored user is unchanged |
| Authenticate.ApiKeyAuth | src/middlewares/authenticate.ts:50-61 | passes exactly a present, non-empty key equal to the configured one; otherwise 401 with the API-key message |
| Authenticate.IsAdmin | src/middlewares/authenticate.ts:63-71 | passes exactly administrators; everyone else is refused with exactly `AuthorizationError("Access denied.")` (403) |
| Validation.StringKey | src/utils/validation-schema.ts:4 | a string key is missing exactly when absent; it is accepted exactly when it holds a string that, trimmed when asked, is not empty unless empty is allowed; the value is that string, trimmed when asked |
| Validation.IntegerKey | src/utils/validation-schema.ts:15-16 | an integer key is missing exactly when absent; it is accepted exactly when it holds an integer within the minimum, the optional maximum and ±`Number.MAX_SAFE_INTEGER` (the `number.unsafe` refusal), and the value is that integer |
| Validation.StrongPasswordHasEveryClass | src/utils/validation-schema.ts:6-8 | an accepted password has at least 8 characters and a lower-case letter, an upper-case letter, a digit and one of !@#$%^&* |
| Validation.NoSpecialIsWeak | src/utils/validation-schema.ts:6-8 | a password without any of the special characters is refused, however long |
| Validation.StrongWithoutLineBreak | src/utils/validation-schema.ts:6-8 | a password of at least 8 characters with no line terminator and one character of each of the four classes is accepted |
| Validation.StrongPasswordExample | src/utils/validation-schema.ts:6-8 | "Passw0rd!" is accepted |
| Validation.WeakPasswordExample | src/utils/validation-schema.ts:6-8 | "Password1" is refused |
| Validation.LineBreakHidesClasses | src/utils/validation-schema.ts:8 | the look-aheads do not cross a line terminator: a password starting with a newline is refused |
| Validation.EmailRule | src/utils/validation-schema.ts:5 | missing exactly when absent; accepted exactly when the trimmed string is not empty and its lower-cased form passes the format check; the value is that lower-cased, trimmed string |
| Validation.PasswordRule | src/utils/validation-schema.ts:6-11 | missing exactly when absent; accepted exactly when it is a string meeting the length and the pattern; the value is the password as sent |
| Validation.RegisterSchemaAdmitsMissingPassword | src/utils/validation-schema.ts:3-12 | the schema as written accepts a body holding only a trimmed, non-empty name and a trimmed, lower-case, well-formed e-mail, and reports no password |
| Validation.ValidateRegister | src/utils/validation-schema.ts:3-12 | accepted exactly when there are no keys other than name, e-mail and password, the trimmed name is not empty, the trimmed lower-cased e-mail passes the format check and the password is strong; the result is (trimmed name, lower-cased trimmed e-mail, password as sent), which the schema as written accepts too |
| Validation.AcceptedRegisterIsNormalised | src/utils/validation-schema.ts:4-5 | an accepted name has no surrounding whitespace and trims to itself; an accepted e-mail has no ASCII capitals |
| Validation.ValidateLogin | src/utils/validation-schema.ts:24-27 | accepted exactly when there are no keys other than e-mail and password, the trimmed lower-cased e-mail passes the format check and the password is a non-empty string; the result is the lower-cased trimmed e-mail and the password as sent |
| Validation.ListingRules | src/utils/validation-schema.ts:14-18 | accepted exactly when there are no keys other than page, limit and (where allowed) search, a given page is an integer from 1 to `Number.MAX_SAFE_INTEGER`, a given limit an integer in 1..100 and a given search a string; page and limit are the values sent or the defaults 1 and 10, the search is the trimmed string sent (possibly empty) or absent |
| Validation.BlankSearchBecomesEmpty | src/utils/validation-schema.ts:17 | a search of blanks is accepted, becomes "", and page and limit take their defaults |
| Validation.ValidateId | src/utils/validation-schema.ts:20-22 | accepted exactly when `id` is the only key and holds a non-empty string passing the UUID check; the result is that string |
| Validation.ValidatePost | src/utils/validation-schema.ts:29-32 | accepted exactly when there are no keys other than title and content and both are strings that are not blank; the result is both trimmed |
| Validation.ValidateComment | src/utils/validation-schema.ts:44-47 | accepted exactly when there are no keys other than content and parentId, the content is a string that is not blank, and a given parentId is null or a string passing the UUID check; the result is the trimmed content and the parent sent, or none when absent or null |
| Validation.UnsafePageRefused | src/utils/validation-schema.ts:15 | a page beyond `Number.MAX_SAFE_INTEGER` makes the listing schemas refuse the query |
| Pagination.Offset | src/services/post.service.ts:45-46 | the offset is never negative, and zero exactly on the first page or for a zero limit |
| Pagination.OffsetSkipsWholePages | src/services/post.service.ts:46 | the offset is a multiple of the limit and skips exactly page − 1 pages |
| Pagination.CeilDiv | src/services/post.service.ts:79 | the page count holds all rows, wastes no whole page, and is zero exactly for zero rows |
| Pagination.CeilDivUnique | src/services/post.service.ts:79 | any page count with those two properties is the computed one |
| Pagination.ListingOf | src/services/post.service.ts:67-82 | a zero count with an empty message gives the fixed empty shape; otherwise the rows, no message, and a page count that holds the count and wastes no whole page, which is ceil(count / limit) by `Pagination.CeilDivUnique`; the page is echoed and the count is the total |
| Store.FirstIndex | src/services/post.service.ts:12 | the index found is the first that matches, and none is found exactly when nothing matches |
| Store.UserIndexByEmail | src/services/auth.service.ts:23 | finds a user with that e-mail, and finds none exactly when no user has it |
| Store.FindUser | src/services/post.service.ts:12 | finds a user row with that id, and finds none exactly when the id is not in the table |
| Store.FindPost | src/services/post.service.ts:121 | finds a post row with that id, and finds none exactly when the id is not in the table |
| Store.FindComment | src/services/post.service.ts:133 | finds a comment row with that id, and finds none exactly when the id is not in the table |
| Store.EmailLookupIsUnique | src/services/auth.service.ts:99-103 | with unique e-mails, the lookup by e-mail finds the one user carrying it |
| Store.AddUserKeepsConsistent | src/services/auth.service.ts:23-34 | appending a user with a new id and a new e-mail keeps the tables consistent, and the user is then found by id |
| Store.AddPostKeepsConsistent | src/services/post.service.ts:23-27 | appending a post by an existing user under a new id keeps the tables consistent, and the post is then found |
| Store.AddCommentKeepsConsistent | src/services/post.service.ts:139-144 | appending a comment by an existing user on an existing post, with an existing or empty parent, keeps the tables consistent |
| Store.UpdateUserKeepsConsistent | src/services/auth.service.ts:134-135 | changing a user's other fields, with id and e-mail kept, keeps the tables consistent |
| PostService.CreatePostCheck | src/services/post.service.ts:12-21 | 404 "User not found" exactly for an unknown user; otherwise 400 "Title and content are required" exactly when either is missing or empty; no error exactly when the user exists and both are present |
| PostService.PostService.CreatePost | src/services/post.service.ts:11-37 | after a failed check the tables are unchanged; otherwise exactly one post is appended, with the given title, content and author and a fresh id, and it is returned; the database stays consistent |
| PostService.CreateCommentCheck | src/services/post.service.ts:116-137 | the checks in order: unknown user, unknown post, missing content, then a given but unknown parent, each with its own error; no error exactly when all pass |
| PostService.ParentMayBelongToAnotherPost | src/services/post.service.ts:132-137 | a parent comment on a different post passes the checks |
| PostService.PostService.CreateComment | src/services/post.service.ts:111-155 | after a failed check the tables are unchanged; otherwise exactly one comment is appended, with the parent id as given, and it is returned; the database stays consistent |
| PostService.UserPostsQuery | src/services/post.service.ts:45-65 | the query filters by author, adds the search filter exactly for a non-empty search, and uses the page's limit and offset |
| PostService.GetUserPosts | src/services/post.service.ts:39-83 | 404 exactly for an unknown user; otherwise the page; a zero count gives no rows, zero pages and "User has no posts" |
| PostService.PostCommentsQuery | src/services/post.service.ts:163-186 | the query filters by post and uses the page's limit and offset |
| PostService.GetPostComments | src/services/post.service.ts:157-204 | 404 exactly for an unknown post; otherwise the page; a zero count gives no rows, zero pages and "Post has no comments" |
| PostService.CommentsIgnoreSearch | src/services/post.service.ts:163 | a search text has no effect on the comments listing |
| PostService.GetPostById | src/services/post.service.ts:85-109 | 404 exactly for an unknown post; otherwise that post, with an author exactly when a user has its `userId`, and that user's id, name and e-mail |
| PostService.FoundPostHasAuthor | src/services/post.service.ts:95-101 | in a consistent database every found post comes with its author |
| PostService.NonEmpty | src/services/post.service.ts:243 | falling back to null keeps a non-empty string and gives null for "" |
| PostService.ParseLatestComment | src/services/post.service.ts:237 | a missing or empty value gives no content and no date; a value without ":::" is all content; a date never holds ":::" |
| PostService.LatestCommentRoundTrip | src/services/post.service.ts:237 | for any non-empty content, ":::" included, and a date that neither starts with ':' nor holds ":::", the concatenation parses back to that content and date |
| PostService.ParsesAgreeWithoutColon | src/services/post.service.ts:237 | for content without ':' the parse as written and the corrected parse both recover content and date |
| PostService.ContentWithSeparatorIsCut | src/services/post.service.ts:237 | "a:::b" written at "1" is read by the parse as written as content "a" and date "b", and by the corrected parse as "a:::b" and "1" |
| PostService.TopUserOf | src/services/post.service.ts:236-246 | a ranked user keeps the row's id, name and e-mail; the post count is the parsed count, or 0 when it is not a number; content and date come from the corrected parse |
| PostService.GetTopUsersWithLatestComment | src/services/post.service.ts:207-247 | the query's `limit: 3` keeps at most `TopUsersLimit` (3) users: the first three of the ranked rows, or all of them when fewer; each becomes a ranked user, in the query's order |
| PostService.NoCommentGivesNulls | src/services/post.service.ts:237-244 | a user with no comment gets null content and a null date |
| AuthService.SessionOf | src/services/auth.service.ts:69-93 | the response shows the user's id, name and e-mail, and two tokens signed over the same claims (id, isAdmin) with the access and refresh settings |
| AuthService.WelcomeIsMailed | src/services/auth.service.ts:37-45 | the dispatcher sends the welcome envelope exactly once, to the new user's e-mail, with subject "Welcome", the user's name as data and the template; it fails exactly when that send fails |
| AuthService.AuthService.Register | src/services/auth.service.ts:20-94 | a taken e-mail gives 400 and changes neither table nor queue; otherwise exactly one user is appended (not an admin, password hashed, fresh id), the welcome message is offered to the queue, the response is the same whether or not the queue accepted it, and the database stays consistent |
| AuthService.LoginCheck | src/services/auth.service.ts:96-119 | the checks in order: unknown e-mail or wrong password give "Email Or Password Incorrect"; a disabled account gives the disabled message; it succeeds exactly when the user with that e-mail is active and the password matches the hash, and then names that user |
| AuthService.WrongPasswordLooksLikeUnknownEmail | src/services/auth.service.ts:105-119 | a wrong password for a known active user gets the same answer as an unknown e-mail |
| AuthService.DisabledBeforePassword | src/services/auth.service.ts:109-119 | a disabled account is reported whatever password is sent |
| AuthService.LoginAfterRegister | src/services/auth.service.ts:96-119 | after a registration under a new e-mail, that e-mail and password log in as the new user, given a comparison that accepts the hash |
| AuthService.AuthService.Login | src/services/auth.service.ts:96-147 | after a failed check nothing changes; otherwise only that user's `lastLoginAt` and `updatedAt` become the current time, the tokens are signed over the user before the update, and the database stays consistent |
| AuthService.UsersQuery | src/services/auth.service.ts:150-169 | the name-or-e-mail filter is used exactly for a non-empty search; the query uses the page's limit and offset |
| AuthService.GetUsers | src/services/auth.service.ts:149-177 | the rows and count as the query returns them, ceil(count / limit) pages, the page echoed, and no message even when nothing matches |
| AuthService.GetUserById | src/services/auth.service.ts:179-189 | 404 "User not found" exactly for an unknown id; otherwise that user's profile, without the password |
| AuthService.LoginKeepsProfile | src/services/auth.service.ts:134-135 | a login changes nothing a profile shows except `updatedAt` |
| Strings.IndexOf | src/services/post.service.ts:237 | the first occurrence of the pattern; none exactly when the pattern is absent |
| Strings.LastIndexOf | src/services/post.service.ts:237 | the last occurrence of the pattern; none exactly when the pattern is absent |
| Strings.Split | src/services/post.service.ts:237 | at least one field, and no field holds the separator |
| Strings.JoinSplit | src/services/post.service.ts:237 | joining the fields with the separator gives back the string |
| Strings.TakeUntil | src/middlewares/authenticate.ts:29 | the longest prefix without the character |
| Strings.FirstFieldOfSingleChar | src/middlewares/authenticate.ts:29 | the first field of a split on one character is the text before that character |
| Strings.TrimStart | src/utils/validation-schema.ts:4 | drops exactly the leading whitespace |
| Strings.TrimEnd | src/utils/validation-schema.ts:4 | drops exactly the trailing whitespace |
| Strings.TrimIsInnerSlice | src/utils/validation-schema.ts:4 | a trimmed string is a slice of the original with no whitespace at either end |
| Strings.TrimIdempotent | src/utils/validation-schema.ts:4 | trimming twice is trimming once |
| Strings.TrimEmptyIff | src/utils/validation-schema.ts:17 | a string trims to "" exactly when it is all whitespace |
| Strings.ToLower | src/utils/validation-schema.ts:5 | same length; every ASCII capital becomes the lower-case letter 32 code points above it; every other character is kept |

## Left out

- The queue consumer loop, message deserialisation and the AWS SDK calls (mail rendering and sending) are left out. `Notify` receives the decoded message, and `sendMail` is a parameter. `JSON.stringify` followed by `JSON.parse` is taken to give back the welcome envelope unchanged.
- Token signing and verification and password hashing are parameters, since they are library code. Hashing happens in the users model's `beforeCreate` hook, which `Register` applies as `hash(password)`.
- SQL is left out: case-insensitive `LIKE`, `ORDER BY`, `COUNT`, `LIMIT`/`OFFSET` and the grouped ranking query. The listings state the query they issue and take its rows and count as given. The ranking takes the grouped rows, already ordered by post count, as given, and applies the query's `LIMIT` of `TopUsersLimit` itself.
- `PostService.PostService.CreatePost`, `PostService.PostService.CreateComment` and `AuthService.AuthService.Register` require a new id that is not already in its table. This stands for the UUIDv4 default of the models. Timestamps are opaque strings passed in.
- Routes, controllers, the server, configuration, logging and the e-mail template HTML are left out. Logging has no effect on results.
- Sequelize model validation is left out (e-mail format, password length 8–100, `allowNull`, UUID column types). A value that only the database would refuse, such as an empty-string `parentId`, is stored by the model as the service passes it.
- The ids in the route paths of `createPost`, `getUserPosts`, `createComment` and `getPostComments` are not checked by any schema. For an id that is not a UUID, Postgres refuses the lookup on the UUID column and the service answers 500. `CreatePostCheck`, `CreateCommentCheck`, `GetUserPosts` and `GetPostComments` instead find no row and answer 404.
- `status` and `lastLoginAt` are not attributes of the users model. The model treats them as columns, as the service reads and writes them.
- PostService.TopUserOf: the date is kept as the string after the separator; `new Date(...)` is not modelled, and the post count is taken as already parsed (`None` for NaN).
- Strings.ToLower: lower-cases ASCII letters only; `toLocaleLowerCase` also maps other scripts.
- Strings are sequences of characters. UTF-16 code units are not modelled, so `min(8)` counts characters.
- Validation.EmailRule: the e-mail format check is a parameter (`isEmail`), as is the UUID format check in `ValidateId` and `ValidateComment`.
- Validation.IntegerKey: numbers that are not integers are one `NonInteger` value, and conversion from query strings is not modelled.
- Pagination.Offset: the service computes `(page - 1) * limit` in double-precision floating point, which rounds once the product passes 2^53 (a page near `Number.MAX_SAFE_INTEGER` with a limit above 1); the model's product is exact.
- The listing functions require page ≥ 1 and limit ≥ 1, which the schemas guarantee. With a zero limit the service itself would divide by zero: a positive count gives an infinite page count; a zero count gives NaN in `getUsers`, while the two post listings return their fixed empty shape.
- The message texts that the schema library produces for refused requests are not modelled. Only acceptance and the converted values are.

## Findings

| source | as written | input that shows it | evidently intended | confidence | as-written member | corrected member |
|---|---|---|---|---|---|---|
| src/services/post.service.ts:237 | the latest comment is split at every ":::" and the first two fields are taken as content and date | a comment "a:::b" written at "1" gives the stored value "a:::b:::1". It reads as content "a" and date "b" (`PostService.ContentWithSeparatorIsCut`) | the date is what follows the separator that `CONCAT_WS` added last, and the content is everything before it | high; not executed | PostService.ParseLatestCommentAsWritten | PostService.ParseLatestComment |
| src/utils/validation-schema.ts:6-11 | `password` has no `required()`, so a registration without a password passes validation. The insert then fails in the database, giving a 500 instead of a 400 | any body with a trimmed name, a trimmed lower-case e-mail and no password key is accepted (`Validation.RegisterSchemaAdmitsMissingPassword`) | the password is required, as the registration input type and the non-null password column demand | high; not executed | Validation.ValidateRegisterAsWritten | Validation.ValidateRegister |
