# blog-server, modelled in Dafny

A model of the request handlers of an Express blog server (users, blogs, comments) and
proofs about it. The centre is the session manager in `controllers/auth.js`. It is a
class over three pieces of state:

- the user table: a map from email to row, where each row has a single refresh-token slot;
- the set of files in the upload directory;
- the last `jwt` cookie instruction sent to the client.

Its methods are `Register`, `Login`, `Refresh` and `Logout`. Around it sit the other parts:

- **Request schemas** of `util/zod.js`. They are parsers from raw request fields to
  trimmed data, with JavaScript's `trim`, UTF-16 length, `Number(...)` and `parseInt(...)`
  written out for integer strings.
- **Pagination arithmetic** shared by the blog listing, the search and a user's blogs.
- **`BlogBoard`**, a class over the blogs table, the comments table and the upload
  directory:
  - its methods `InsertABlog`, `EditBlog` and `InsertComment` change state;
  - its functions `GetComments` and `GetSingleBlog` only read.
- **The access gate** of `middlewares/verifyJWT.js`, which reads a bearer token.
- **The upload rules** of `util/multerConfig.js`.
- **The error middleware**, which maps errors to HTTP statuses.

The foreign libraries are oracles, passed in as parameters:

- bcrypt `hash` and `compare`;
- `jwt.sign` and `jwt.verify`, with expiry folded into `verify` returning None;
- the UUID format check;
- the email format check.

The clock and the generated identifiers are method parameters. The SELECT and COUNT
queries of the listings are also parameters: functions from filter and window to rows,
and from filter to a count.

Files: `common.dfy` (shared values), `text.dfy` (trim, UTF-16 length, split),
`numbers.dfy` (`Number`, `parseInt`, `String`), `schemas.dfy`, `uploads.dfy`,
`errors.dfy`, `pagination.dfy`, `auth.dfy`, `blogs.dfy`, `users.dfy`, `accessgate.dfy`,
and `scenarios.dfy` (whole sessions on a fresh session manager).

The code as written behaves as follows, and the model does the same:

- a successful registration answers 200 (no status is set), not 201;
- `insertABlog` stores `Number(null)`, which is 0, for a null category;
- every pagination query (`page`, and `limit` and `categoryId` where the schema has them)
  must be present, because `z.coerce.number()` turns an absent value into NaN and rejects it;
- `editBlog` unlinks the file named by the fetched row's `imagepath` field, while the
  handlers write the image path into `blogImagePath`. The model keeps the two apart: a
  row inserted by `InsertABlog` has no `imagepath`, so editing it unlinks nothing;
- the old image is unlinked even when the edit brings no new file, and the row then keeps
  pointing at it.

## Model

| member | source | states |
|---|---|---|
| `Common.Truthy` | controllers/blogs.js:67 | JavaScript truthiness of a raw field: undefined, null, '' and 0 are falsy (used as the category test, stated by `Blogs.ListingFilter`) |
| `Common.Present` | controllers/auth.js:122 | an optional string is truthy iff present and non-empty (the `!cookie` and `!authHeader` tests, stated by `Auth.SessionManager.Refresh`, `Auth.SessionManager.Logout` and `AccessGate.VerifyJwt`) |
| `Text.Trim` | util/zod.js:15-17 | `.trim()` never lengthens a string, and the result neither starts nor ends with white space |
| `Text.Utf16Length` | util/zod.js:15-17 | the length `.min(n)` measures lies between the number of code points and twice that, and equals it when no code point lies above U+FFFF |
| `Text.TrimStartFacts` | util/zod.js:15 | trimStart leaves a suffix, removes only white space, and the suffix does not start with white space |
| `Text.TrimEndFacts` | util/zod.js:15 | trimEnd leaves a prefix, removes only white space, and the prefix does not end with white space |
| `Text.TrimIsCore` | util/zod.js:15-17 | any slice with only white space around it and none at its ends is the trimmed string |
| `Text.TrimShape` | util/zod.js:15-17 | the trimmed string is a slice of the input, with only white space cut on either side and none left at its ends |
| `Text.TrimIdempotent` | util/zod.js:15-17 | trimming an already trimmed string changes nothing |
| `Text.TrimEmpty` | util/zod.js:22 | a string that trims to empty is white space only |
| `Text.TrimStartSplits` | util/zod.js:22 | after trimStart, what is left is the trimmed string followed by white space only |
| `Text.TrimPadded` | util/zod.js:46-47 | white space added at either end is trimmed away again |
| `Text.Split` | middlewares/verifyJWT.js:12 | split gives at least one piece, and no piece contains the separator |
| `Text.SplitJoin` | middlewares/verifyJWT.js:12 | joining the pieces with the separator gives back the header |
| `Text.SplitAfterPiece` | middlewares/verifyJWT.js:12 | a head without a separator is the first piece, and the rest is split on its own |
| `Text.SplitHasPieces` | middlewares/verifyJWT.js:12 | there is a second piece exactly when the separator occurs |
| `Numbers.Decimal` | util/multerConfig.js:9 | the decimal form of a number is non-empty and all digits |
| `Numbers.DecimalRoundTrip` | util/multerConfig.js:9 | reading the decimal form back gives the number |
| `Numbers.DigitPrefix` | controllers/blogs.js:63-64 | parseInt reads the maximal run of digits: a prefix, all digits, stopping before a non-digit |
| `Numbers.DigitPrefixStops` | controllers/blogs.js:63-64 | parseInt's digit run ends where the digits end, whatever follows |
| `Numbers.NumberToString` | controllers/blogs.js:63-64 | `String(n)` of an integer is non-empty, starts with '-' iff n is negative, and is otherwise digits |
| `Numbers.ParseInt` | controllers/blogs.js:63-64 | parseInt reads a number iff, after leading white space and an optional sign, a digit comes; a negative result needs a leading '-' |
| `Numbers.NumberOfText` | util/zod.js:5 | Number of a blank string is 0; otherwise it is a number iff the trimmed string is an optionally signed run of digits; a negative result needs a leading '-' |
| `Numbers.CoerceNumber` | util/zod.js:4-6 | `z.coerce.number()` fails exactly on a missing field and on a string Number refuses; null and blank strings give 0; a number is kept |
| `Numbers.ParseIntRaw` | controllers/users.js:32-33 | parseInt of undefined or null is NaN, of a number n is n, and of a string is parseInt of the string |
| `Numbers.OrDefault` | controllers/users.js:32-33 | JavaScript's logical-or default gives x unless x is NaN or 0, and then d; with a non-zero default the result is never 0 |
| `Numbers.ParseIntOfString` | controllers/blogs.js:63-64 | parseInt of the plain decimal numeral of an integer n is n (for JavaScript, this covers integers that String writes without an exponent, below 10^21 in size) |
| `Numbers.UnsignedAppend` | controllers/users.js:32-33 | taking the sign off a numeral commutes with appending text after it |
| `Numbers.ParseIntAgreesWithNumber` | controllers/users.js:32-33 | where Number accepts a non-blank string written as an optionally signed decimal integer, parseInt reads the same integer |
| `Numbers.DefaultAfterCoercion` | controllers/users.js:32-33 | parsing the raw field and parsing the coerced number give the same value after the default d is applied, whenever Number(raw) is not NaN, for raw values that are decimal integer numerals |
| `Schemas.MinTrimmed` | util/zod.js:15-17 | `.trim().min(n)` passes only strings; `.min(0)` passes every string; a passing string keeps at least n/2 code points after trimming |
| `Schemas.TrimmedMin` | util/zod.js:15-17 | a value is parsed iff the test passes, and then it is trimmed, no longer than the input, and at least n UTF-16 units long |
| `Schemas.EmailString` | util/zod.js:30 | `.email()` accepts exactly the strings the format check accepts, and returns them untrimmed |
| `Schemas.NullableNumber` | util/zod.js:4 | null is kept as null (and only null gives null); the field fails exactly when coercion gives NaN; otherwise the coerced number |
| `Schemas.BlogsPaginationProps` | util/zod.js:3-7 | accepted iff page is a number and categoryId and limit are numbers or null; a missing field is rejected; the parsed page and limit are the coerced values; the parsed categoryId is null iff the field is null, and otherwise the coerced number |
| `Schemas.UserBlogsQueries` | util/zod.js:9-12 | accepted iff page is a number and limit a number or null; the parsed values are the coerced ones |
| `Schemas.SearchQueries` | util/zod.js:21-25 | accepted iff query is a string (blank allowed) and page and limit pass; a missing field is rejected; the stored query is the trimmed one; the parsed limit is null iff the field is null, and otherwise the coerced number |
| `Schemas.BlogInsertionProps` | util/zod.js:14-19 | accepted iff trimmed title ≥ 3, trimmed userId ≥ 36, trimmed body ≥ 3 UTF-16 units and categoryId is a number or null; the parsed strings are trimmed; the parsed categoryId is null iff the field is null, and otherwise the coerced number |
| `Schemas.EditBlogProps` | util/zod.js:39-43 | accepted iff trimmed title and body ≥ 3 and categoryId is a number or null; the parsed strings are trimmed; a null category passes; a non-null categoryId is parsed to its coerced number |
| `Schemas.CommentsProps` | util/zod.js:45-48 | accepted iff trimmed comment and trimmed username ≥ 3; the parsed value is the two trimmed strings |
| `Schemas.RegistrationProps` | util/zod.js:28-32 | accepted iff trimmed username ≥ 3, the email passes the format check, and trimmed password ≥ 8; the email is not trimmed |
| `Schemas.LoginProps` | util/zod.js:34-37 | accepted iff trimmed password ≥ 8 and the email passes the format check; the parsed password is the trimmed one |
| `Schemas.RegistrationReparses` | util/zod.js:28-32 | parsed registration data is trimmed and validates again unchanged |
| `Schemas.RegistrationPassesLogin` | util/zod.js:28-37 | every accepted registration passes the login schema, with the same email and the same trimmed password |
| `Schemas.BlogInsertionReparses` | util/zod.js:14-19 | parsed title, userId and body are trimmed |
| `Schemas.CommentReparses` | util/zod.js:45-48 | parsed comment data validates again unchanged |
| `Schemas.CommentIgnoresPadding` | util/zod.js:45-48 | white space padding of a comment changes neither the verdict nor the parsed value |
| `Uploads.FileFilter` | util/multerConfig.js:15-25 | a file is accepted iff its mimetype is image/png, image/jpg or image/jpeg; every other file is rejected with 401 'Invalid file format' |
| `Uploads.Destination` | util/multerConfig.js:5-7 | the destination callback answers with the configured directory (stated by `Uploads.DestinationIsConfigured`) |
| `Uploads.Discard` | controllers/auth.js:21 | unlinking removes exactly the named file from the directory and keeps every other file; with no file nothing changes |
| `Uploads.DestinationIsConfigured` | util/multerConfig.js:5-7 | every file goes to the configured directory, whatever its name or type |
| `Uploads.StoredFilename` | util/multerConfig.js:8-10 | the stored name is longer than the original name and ends with it |
| `Uploads.StoredFilenameRoundTrip` | util/multerConfig.js:8-10 | the stored name determines the upload instant and the original name |
| `ErrorHandling.ErrorHandlerMiddleware` | middlewares/errorHandler.js:4-15 | a custom error gives its own status and message; a Multer 'File too large' gives 401 with that message; any other Multer error gives 401 'Could not upload the File'; anything else gives 500 with the generic message |
| `ErrorHandling.ApiErrorReachesClient` | middlewares/errorHandler.js:5-7 | an error built by createCustomError reaches the client with its status and message |
| `ErrorHandling.UnexpectedErrorsLookAlike` | middlewares/errorHandler.js:13-14 | nothing about an unexpected error shows in the response |
| `ErrorHandling.RejectedUploadAnswer` | util/multerConfig.js:22-24 | a refused upload is answered with 401 'Invalid file format' |
| `Pagination.WindowOf` | controllers/blogs.js:63-65 | the page is the parsed page unless NaN or 0 (then 1); the limit likewise with default 6; the offset is (page - 1) * limit |
| `Pagination.Paginate` | controllers/blogs.js:74-93 | an empty page is 404 with the handler's message; otherwise the rows are returned; nextPage is page + 1 iff total > page * limit; prevPage is page - 1 iff page > 1 |
| `Pagination.PageCount` | controllers/blogs.js:86 | a listing fills at least one page |
| `Pagination.NextPageUntilLast` | controllers/blogs.js:86-92 | for a positive page and limit, nextPage is offered exactly on the pages before the last |
| `Pagination.LastPageHoldsLastRow` | controllers/blogs.js:86-92 | the last page starts before the total and reaches it |
| `Auth.Public` | controllers/auth.js:138-139 | the projection loses nothing but the password and the refresh token: putting them back gives the row |
| `Auth.MatchingRows` | controllers/auth.js:122-125 | `SELECT ... WHERE refreshToken = $1` selects exactly the rows whose slot holds the token |
| `Auth.Rotated` | controllers/auth.js:101-104 | the UPDATE keeps the set of rows, overwrites the slot of the named row and leaves every other row as it was |
| `Auth.PublicKeepsTheRest` | controllers/auth.js:138-140 | the user projection drops exactly password and refreshToken and keeps every other field |
| `Auth.RotationRevokes` | controllers/auth.js:102-105 | after overwriting a row's slot, the row matches the new token and no other; other rows match as before |
| `Auth.SessionManager.Stage` | util/multerConfig.js:3-11 | the upload layer adds the file to the directory |
| `Auth.SessionManager.Register` | controllers/auth.js:11-69 | invalid data: 400, the staged file deleted, table and cookie unchanged. A known email: 409, the same. Otherwise: exactly one row added with the trimmed username, the hashed trimmed password, the staged image path or null, and a refresh token equal to the cookie; the reply is the public projection and an access token |
| `Auth.SessionManager.Login` | controllers/auth.js:71-118 | invalid data: 400. An unknown email: 404. A wrong password: 400. None of these changes the table or the cookie. Otherwise only that row's slot is overwritten with the new refresh token, the cookie is set to the same value, and the reply is the public projection and an access token |
| `Auth.SessionManager.Refresh` | controllers/auth.js:120-142 | 403 'Prohibited' iff there is no cookie. 403 'INVALID USER' iff there is a cookie and no row holds it. A row that fails refresh verification: 401. Success: a matching, accepted row's projection and one access token for its email. The method has no frame, so it never writes |
| `Auth.SessionManager.Logout` | controllers/auth.js:144-149 | no cookie: 204 and nothing changes; otherwise the cookie is cleared; the table is never touched |
| `Blogs.InsertedCategory` | controllers/blogs.js:39 | `Number(categoryId)` in the INSERT binds the same number as the UPDATE for a numeric category and 0 for null |
| `Blogs.EditedCategory` | controllers/blogs.js:183 | the UPDATE binds SQL NULL exactly for a null category, and otherwise the coerced number |
| `Blogs.QueryWindow` | controllers/blogs.js:63-65 | parsing the validated numbers again gives the window of the coerced page and limit, for numbers written as plain decimal numerals |
| `Blogs.ListingFilter` | controllers/blogs.js:67-72 | the category filter applies iff the raw categoryId is truthy, and then binds the coerced value |
| `Blogs.GetBlogs` | controllers/blogs.js:52-95 | invalid queries: 400; otherwise the page of the chosen filter, with the coerced window, 404 when empty, and next/prev links from the count |
| `Blogs.SearchPattern` | controllers/blogs.js:126-128 | the pattern is the raw query between two '%' |
| `Blogs.GetSearchedBlogs` | controllers/blogs.js:116-149 | invalid queries: 400; otherwise the page for the untrimmed query's pattern, 404 when empty, next/prev from the count |
| `Blogs.EmptyListingIgnoresCount` | controllers/blogs.js:74-76 | an empty page is answered with 404 before the count can matter |
| `Blogs.SearchPatternKeepsPadding` | controllers/blogs.js:118-128 | padding the query changes the pattern but not the validated query |
| `Blogs.CommentsOn` | controllers/blogs.js:233-236 | the selected comments are exactly those of the blog |
| `Blogs.BlogBoard.Stage` | util/multerConfig.js:3-11 | the upload layer adds the file to the directory |
| `Blogs.BlogBoard.InsertABlog` | controllers/blogs.js:15-50 | no file: 400 before validation, nothing changes. Invalid data: the file is deleted, 400, nothing inserted. Otherwise exactly one row is added with the trimmed fields, the file as image and Number(categoryId); status 201. So every row has an image (the invariant) |
| `Blogs.BlogBoard.EditBlog` | controllers/blogs.js:151-198 | bad id: the file is deleted, 400. Invalid fields: 400. A missing blog: 404. Neither of these deletes the file. Otherwise the old `imagepath` is unlinked when set; title, body and categoryId are overwritten; the image column changes only when a file came; no other row changes |
| `Blogs.BlogBoard.InsertComment` | controllers/blogs.js:200-225 | not both ids UUIDs, or invalid fields: 400 and nothing appended; otherwise one comment with the raw ids and trimmed text is appended |
| `Blogs.BlogBoard.GetComments` | controllers/blogs.js:227-242 | 400 iff the blogId is not a UUID; 404 iff the blog has no comments; no other error; otherwise exactly the blog's comments |
| `Blogs.BlogBoard.GetSingleBlog` | controllers/blogs.js:97-114 | 400 'Invalid params' iff the id is empty or not a UUID, and no other rejection; the blog iff it exists; otherwise 'Could not find the intended blog' |
| `Users.GetSingleUser` | controllers/users.js:7-17 | 400 'Invalid Params' iff the id is empty or not a UUID; 400 'User not found' iff no row has that id; no other error is possible; otherwise the projection, without password and refresh token, of a row with that id |
| `Users.UserWindow` | controllers/users.js:32-34 | once the queries validate, the window read from the raw values equals the one the blog listing computes from the coerced numbers, for raw values that are decimal integer numerals |
| `Users.GetAllBlogsOfUser` | controllers/users.js:21-60 | a bad id is 400 before validation; invalid queries: 400; otherwise that user's page with the coerced window, 404 when empty, next/prev from the count |
| `AccessGate.BearerToken` | middlewares/verifyJWT.js:12 | there is a token iff the header contains a space, and the token contains none |
| `AccessGate.TokenFollowsScheme` | middlewares/verifyJWT.js:12 | the token is the field after the scheme word, whatever follows it |
| `AccessGate.AccessClaims` | middlewares/verifyJWT.js:14-16 | a missing or empty token gives no claims; any claims are those the access secret's verification returns for the token |
| `AccessGate.AccessEmail` | middlewares/verifyJWT.js:9-16 | an email is only found for a present header with a bearer token, it is non-empty, and it is the email claim that verification with the access secret returns for that token |
| `AccessGate.RowsWithEmail` | middlewares/verifyJWT.js:17-19 | `SELECT ... WHERE email = $1` selects exactly the rows with that email |
| `AccessGate.VerifyJwt` | middlewares/verifyJWT.js:8-24 | the request passes iff the header's token verifies with the access secret and names the email of some row; it is refused with 401 otherwise, and always when there is no header |
| `AccessGate.SchemeIsIgnored` | middlewares/verifyJWT.js:12-14 | the verdict does not depend on the scheme word |
| `AccessGate.IssuedTokenPasses` | middlewares/verifyJWT.js:14-22 | an access token signed for a row's email passes when it verifies |
| `AccessGate.FailedVerificationDenies` | middlewares/verifyJWT.js:14-16 | a token that fails verification, or whose claims carry no email, is refused with 401 whatever the table holds |
| `AccessGate.NoTokenNoPass` | middlewares/verifyJWT.js:12-16 | a header without a space is refused |
| `Scenarios.LogoutKeepsRefreshWorking` | controllers/auth.js:144-149 | after register and logout, refreshing with the kept refresh token still succeeds and returns the registered user |
| `Scenarios.LoginRevokesEarlierRefresh` | controllers/auth.js:94-105 | after register and a new login, the first refresh token matches no row and refresh answers 403 'INVALID USER' |
| `Scenarios.RegisteredTokenOpensGate` | middlewares/verifyJWT.js:8-24 | the access token handed out at registration passes the access gate |

## Left out

- SQL is not executed. Tables are maps and sequences. LIMIT/OFFSET, `ORDER BY createdAt`, `ILIKE` and `COUNT(*)` are parameters that give the rows and the total.
- The joins of getSingleBlog, getComments and the search are not modelled. Rows whose user is missing are not dropped. The extra joined columns (username, category name, userImagePath) are not produced.
- Postgres column-name case folding is not modelled. Email, token and id comparisons are exact string equality. Postgres folds the unquoted `refreshToken` to `refreshtoken`, so the row read at controllers/auth.js:128 may lack a `refreshToken` property; the model reads the slot as stored.
- The 500 branches after an INSERT or UPDATE that returns no row are not modelled. With no concurrency they are unreachable. The same goes for editBlog's 'could not update the blog' branch and for database errors such as foreign-key violations.
- `Blogs.BlogBoard.InsertABlog`: requires a fresh generated id. A UUID collision would be a database error.
- `fs.unlink` is modelled as removing the file from the directory set. Its failures are left out.
- Multer's disk storage and size limit are left out. Stage stands for the file being written before the handler runs.
- `Number(...)` is modelled on blank strings and optionally signed decimal integers only. Floats, exponents, hex, Infinity and booleans are left out, and so is `parseInt` of hex prefixes. Numbers are unbounded integers, so doubles, their rounding and their exponent notation are left out.
- ParseIntOfString: holds in the model for every integer; in JavaScript `String(1e21)` is "1e+21" and `parseInt` of it is 1, so the fact is only promised for integers below 10^21 in size that a double holds exactly.
- ParseIntAgreesWithNumber: only covers decimal integer numerals; in JavaScript `Number("1e3")` is 1000 while `parseInt("1e3")` is 1, and the model's Number refuses "1e3".
- DefaultAfterCoercion: only covers decimal integer numerals, for the same reason; for "1e3" the two sides differ in JavaScript (1 against 1000).
- QueryWindow: only shown for page and limit values below 10^21; a query `page=1e21` passes validation in JavaScript and is read back by `parseInt(String(1e21))` as page 1, which the model does not reproduce.
- UserWindow: only shown for decimal integer numerals; a query `page=1e3` passes validation in JavaScript, and the user's blogs are then paged from page 1 (`parseInt("1e3")`) while the blog listing and the search page from 1000. The model rejects "1e3" and cannot show this difference between the handlers.
- GetBlogs: inherits the QueryWindow limit: with `page=1e21` the source serves page 1.
- GetSearchedBlogs: inherits the QueryWindow limit: with `page=1e21` the source serves page 1.
- GetAllBlogsOfUser: inherits the UserWindow limit: with `page=1e3` the source serves page 1, where the blog listing would serve page 1000.
- bcrypt salting, JWT signature algorithms and the 15min/3d expiry clocks are left out. They are assumptions about the oracles.
- `util/uuidV4Regex.js`, `errors/custom-error.js`, `middlewares/async.js` and `database/db.js` are not part of this model.
- The UUID check is an oracle on strings. Non-string fields fail it.
- The status of getSingleBlog's not-found error is not fixed. That error is built without a status, and 404 goes to `next` as a second argument. The model returns `NotFound(message)` without a status.
- The asynchrony of `jwt.verify` callbacks and `asyncWrapper` is not modelled. Each handler is one sequential step.
- The `Authorization` header fallback is not modelled. Node lowercases header names, so only `authorization` is read.
- verifyJWT's re-check `rows[0].email !== decoded.email` never fires under exact equality.
- A negative page or limit is not rejected by the source and gives a negative offset; the model keeps the integer arithmetic and does not model how the database treats it.
- The JSON response envelopes (`success: true`, field names) are not modelled. Only the data they carry is.
