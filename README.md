# SecureInputShield server pipeline in Dafny

This project models the server side of SecureInputShield, a demo form that accepts a contact submission. A submission goes through four stages:

- **Rate limiter.** A per-client map from key to `{count, resetTime}` allows 5 requests per fixed window of 60 000 ms. Each call first sweeps every expired entry. It then creates, counts or blocks the caller's entry. A blocked request gets a `retryAfter` hint in whole seconds.
- **Normaliser.** It rewrites the request body in place. Each truthy field is trimmed, the email is also lowercased, and the phone is also filtered to digits, `+`, `-`, `(`, `)` and white space. The result then goes through the HTML sanitizer.
- **Schema.** The form's zod rules check the full name, email, phone, message and security preferences. The parse is all-or-nothing and reports one issue per failed check.
- **Store.** `MemStorage` holds users and submissions in maps keyed by ids. The ids come from counters that start at 1. Listing returns the submissions newest first.

The POST route runs these in order:

1. Rate limit: 429 when blocked.
2. Normalise: 500 when a field cannot be trimmed.
3. Parse: 400 with the issues on failure.
4. Store and answer with the stored data.

Files:

- `wrappers.dfy`: `Option` and `Result`.
- `json.dfy`: JSON values as the handler receives them, with JavaScript truthiness.
- `js_string.dfy`: `trim`, `toLowerCase`, the phone filter and the character classes.
- `schema.dfy`: the field rules, as acceptance predicates and as zod's issue lists, and `safeParse`.
- `rate_limit.dfy`: the limiter as a specification function `Step` with its lemmas, plus the class `RateLimiter`, which updates the map in place and is proved to follow `Step`.
- `storage.dfy`: `MemStorage` as a class with map fields and counters, plus the stable newest-first sort.
- `sanitize.dfy`: the normaliser as a function on values and as a method that rewrites a `RequestBody` object in place.
- `routes.dfy`: the POST handler, the response each request gets, and the listing route.

Foreign code and the environment are parameters:

- `DOMPurify.sanitize` is `purify: string -> string`. It is assumed total (it never throws); nothing is assumed about its output.
- zod's email syntax check is `isEmail: string -> bool`.
- The clock is the millisecond reading `now`.
- The request's address, the socket's remote address and the `User-Agent` header are optional strings.

## Model

| member | source | states |
|---|---|---|
| JsString.TrimStart | server/routes.ts:58 | the longest suffix not starting with white space; everything cut is white space |
| JsString.TrimEnd | server/routes.ts:58 | the longest prefix not ending with white space; everything cut is white space |
| JsString.Trim | server/routes.ts:58-61 | `trim()` is no longer than its input and has no white space at either end; `JsString.TrimIsInfix` adds that it is the infix left after cutting white space |
| JsString.TrimIsInfix | server/routes.ts:58-61 | `trim()` returns the infix left after cutting white space at both ends, and it has no white space at either end |
| JsString.TrimOfTrimmed | server/routes.ts:58-61 | a string without white space at either end is its own trim |
| JsString.TrimIdempotent | server/routes.ts:58-61 | trimming twice is trimming once |
| JsString.ToLowerCase | server/routes.ts:59 | same length, no capital letter left, each capital replaced by its small letter and every other character kept |
| JsString.LowerCaseKeepsTrimmed | server/routes.ts:59 | lowercasing a trimmed string leaves it trimmed |
| JsString.LowerCaseIdempotent | server/routes.ts:59 | lowercasing twice is lowercasing once |
| JsString.KeepPhoneChars | server/routes.ts:60 | the result holds only digits, `+`, `-`, `(`, `)` and white space, each kept as often as it occurs in the input, and nothing else |
| JsString.KeepPhoneCharsConcat | server/routes.ts:60 | the filter works character by character and keeps the survivors in input order: filtering a concatenation concatenates the filtered parts, and one character is kept exactly when it is a phone character |
| JsString.KeepPhoneCharsFixedPoint | server/routes.ts:60 | the filter leaves a string unchanged exactly when every character is a phone character |
| Schema.FullNameIssues | shared/schema.ts:35 | no issue exactly when the name is a string of 2 to 50 ASCII letters or white space; every issue names the full name |
| Schema.EmailIssues | shared/schema.ts:36 | no issue exactly when the email is a string that passes the email check and has at most 100 characters |
| Schema.PhoneIssues | shared/schema.ts:37 | no issue exactly when the phone is absent, `""`, or a pattern match of at most 20 characters |
| Schema.MessageIssues | shared/schema.ts:38 | no issue exactly when the message is a string of 10 to 500 characters |
| Schema.ElementIssues | shared/schema.ts:39 | no issue exactly when every element from `from` on is an allowed tag; each issue carries a bad element's index |
| Schema.PreferencesIssues | shared/schema.ts:39 | no issue exactly when the preferences are absent or an array of allowed tags |
| Schema.FieldIssues | shared/schema.ts:34-40 | a field's issues are empty exactly when its rule holds, and all of them name that field |
| Schema.ReportsOwnField | shared/schema.ts:34-40 | a field's own issues name a field exactly when it is that field and its rule fails |
| Schema.AllIssuesNameFailedFields | shared/schema.ts:34-40 | the issue list of a parse names a field exactly when that field's rule fails |
| Schema.SafeParse | server/routes.ts:74 | success exactly when every field rule holds, returning the fields unchanged; on failure a non-empty issue list naming exactly the failed fields |
| Schema.PhonePatternShape | shared/schema.ts:37 | an accepted non-empty phone has 1 to 17 characters, all digits apart from an optional leading `+`, with no white space, dash or parenthesis |
| Schema.FullNameLengthBoundary | shared/schema.ts:35 | a one-letter name is rejected and a two-letter name accepted |
| Schema.DuplicatePreferencesAccepted | shared/schema.ts:39 | a repeated preference tag is accepted |
| RateLimit.CeilSeconds | server/routes.ts:42 | the least whole number of seconds covering the milliseconds left |
| RateLimit.Sweep | server/routes.ts:19-23 | exactly the entries with `now > resetTime` are deleted; the others are kept unchanged |
| RateLimit.Step | server/routes.ts:14-49 | one call of `rateLimit`: allowed exactly when the caller has no live entry or fewer than 5 counted requests; an allowed caller has an entry afterwards; any other client keeps an entry exactly when it had one that was not expired. The lemmas below state the rest of its behaviour |
| RateLimit.ResetBranchUnreachable | server/routes.ts:33-37 | after the sweep the caller's entry, if any, is not expired, so the reset branch is dead |
| RateLimit.FirstRequestCreatesEntry | server/routes.ts:27-31 | a client with no live entry is allowed and gets `{count: 1, resetTime: now + 60000}` |
| RateLimit.AllowTouchesOnlyCaller | server/routes.ts:47-48 | an allowed request increments only the caller's live count, by one, keeping its window; other clients are touched only by the sweep |
| RateLimit.BlockedKeepsEntry | server/routes.ts:39-45 | whatever the clock did, a blocked request comes from a live entry with at least 5 counted requests, leaves the swept map and that entry as they were, and its hint is `ceil((resetTime - now)/1000)` |
| RateLimit.BlockedHintBounds | server/routes.ts:39-45 | for a well-formed map when the clock has not gone back, a block happens at exactly 5 counted requests and its hint lies between 0 and 60 |
| RateLimit.StepKeepsCounts | server/routes.ts:28-47 | whatever the clock does, every entry keeps 1 ≤ count ≤ 5: entries start at 1 and are counted up only while below 5 |
| RateLimit.StepKeepsWellFormed | server/routes.ts:28-47 | when the clock has not gone back, the counts stay in range and every window ends at most 60 000 ms after now |
| RateLimit.WindowCounts | server/routes.ts:39-48 | while a window lasts, the caller's entry counts exactly the requests let through, never past 5, whatever other clients do |
| RateLimit.AtMostMaxPerWindow | server/routes.ts:39-48 | within one window a client is let through at most 5 times |
| RateLimit.WindowDecisions | server/routes.ts:39-48 | requests from one client inside its window: the first `5 - count` are allowed, every later one blocked with the seconds left |
| RateLimit.SixthRequestBlocked | server/routes.ts:39-45 | six requests within a minute from a new client: five allowed, the sixth blocked with a hint of 0 to 60 |
| RateLimit.ZeroHintAtWindowEnd | server/routes.ts:42 | a request blocked exactly at `resetTime` gets `retryAfter` 0 |
| RateLimit.RateLimiter.constructor | server/routes.ts:10 | the store starts empty |
| RateLimit.RateLimiter.SweepExpired | server/routes.ts:19-23 | the in-place cleanup loop leaves exactly `Sweep` of the old map |
| RateLimit.RateLimiter.RateLimitRequest | server/routes.ts:14-49 | the decision and the new map are those of `Step` |
| Storage.OrNull | server/storage.ts:48-49 | a missing or empty string becomes null; any other string is kept |
| Storage.InsertPermutes | server/storage.ts:56-58 | inserting into the sorted list adds exactly the new element |
| Storage.InsertSorted | server/storage.ts:56-58 | inserting keeps the list newest first |
| Storage.InsertStable | server/storage.ts:56-58 | the new element goes before every element with the same timestamp; since the sort inserts the input from its last element to its first, equal timestamps keep their input order |
| Storage.SortNewestFirst | server/storage.ts:56-58 | the sorted list is a permutation of the input; `Storage.SortCorrect` adds that it is newest first and stable |
| Storage.SortCorrect | server/storage.ts:55-59 | the sort is newest first, a permutation, and stable among equal timestamps |
| Storage.InsertionOrder | server/storage.ts:56 | the map's values in insertion order, which is id order |
| Storage.InsertionOrderHoldsAll | server/storage.ts:56 | the insertion-order list holds every stored submission and nothing else |
| Storage.MemStorage.constructor | server/storage.ts:18-23 | empty maps and both counters at 1 |
| Storage.MemStorage.GetUser | server/storage.ts:25-27 | a user exactly for ids in use, stored under that id; otherwise none, without failing |
| Storage.MemStorage.FindUser | server/storage.ts:29-33 | the first user from `from` on with the name, or none when no such user exists |
| Storage.MemStorage.GetUserByUsername | server/storage.ts:29-33 | a stored user with that name and no smaller id, or none when no user has the name |
| Storage.MemStorage.CreateUser | server/storage.ts:35-40 | the user gets the counter's id and is stored under it; the counter goes up by one and nothing else changes |
| Storage.MemStorage.GetFormSubmission | server/storage.ts:61-63 | a submission exactly for ids in use, stored under that id; otherwise none |
| Storage.MemStorage.GetFormSubmissions | server/storage.ts:55-59 | every stored submission exactly once, newest first, ties in insertion order |
| Storage.MemStorage.CreateFormSubmission | server/storage.ts:42-53 | the record gets the counter's id, the time, and null for a missing or empty address or agent; the new id exceeds all earlier ids; it is found by id and listed; earlier submissions are unchanged |
| Storage.CreateTwice | server/storage.ts:43 | in a fresh store the first two submissions get ids 1 and 2 |
| Sanitize.SanitizeStep | server/routes.ts:58-61 | one line of the normaliser throws exactly on a truthy non-string, leaving the body as it was; otherwise a truthy field becomes the sanitized form of its normalised value, a falsy one stays, and every other field is unchanged |
| Sanitize.SanitizeSubmission | server/routes.ts:56-64 | the normaliser throws exactly when one of the four string fields is a truthy non-string, and never touches the preferences; `Sanitize.FieldsRewritten` and `Sanitize.NoThrowBody` give the rewritten fields |
| Sanitize.FieldsRewritten | server/routes.ts:58-61 | falsy fields are untouched; without a throw every truthy field becomes the sanitized form of its normalised value |
| Sanitize.NoThrowBody | server/routes.ts:58-61 | without a throw the body is the four rewritten fields, with the preferences as they were |
| Sanitize.EmailNormalForm | server/routes.ts:59 | the normalised email is trimmed, holds no capital letter and is its own normal form |
| Sanitize.PhoneNormalForm | server/routes.ts:60 | the normalised phone holds only digits, `+`, `-`, `(`, `)` and white space |
| Sanitize.FormattedPhoneRejected | shared/schema.ts:37 | a phone still holding white space, a dash or a parenthesis is rejected |
| Sanitize.RequestBody.constructor | server/routes.ts:71 | the object holds the given body |
| Sanitize.ValidateAndSanitizeSubmission | server/routes.ts:56-64 | the in-place rewrite leaves the body and the throw that `SanitizeSubmission` gives |
| Routes.FirstTruthy | server/routes.ts:85 | `a \|\| b`: the first present, non-empty string |
| Routes.ClientKey | server/routes.ts:15 | the limiter's key is never empty: the request's address when present and non-empty, else the socket's remote address when present and non-empty, else the loopback address |
| Routes.ClientKeyMatchesRecordedAddress | server/routes.ts:15 | a recorded address is the limiter's key; clients without one share the loopback key |
| Routes.StatusCauses | server/routes.ts:68-109 | 429 exactly when blocked, 500 exactly when normalising throws, 400 exactly when the normalised body breaks a rule, 200 otherwise |
| Routes.Respond | server/routes.ts:68-110 | the response is 429 exactly when the limiter blocks, carrying the limiter's `retryAfter` hint; a 200 comes only from an allowed request whose normalised body the schema accepts, and carries the next id; `Routes.StatusCauses` and the `Routes.Submitted…` lemmas give the other statuses and the data |
| Routes.InternalErrorIff | server/routes.ts:106-109 | an allowed request answers 500 exactly when a string field is a truthy non-string |
| Routes.ValidationFailureNamesFields | server/routes.ts:76-82 | a 400 lists at least one issue and names exactly the failed fields of the normalised body |
| Routes.RefusedRequestUsesSlot | server/routes.ts:68 | a request answered 400 or 500 has still been counted by the limiter |
| Routes.SubmittedOnlyIfAccepted | server/routes.ts:74-93 | a 200 is an allowed, non-throwing request whose normalised body the schema accepts, carrying the next id and the parsed body |
| Routes.SubmittedDataIsSanitized | server/routes.ts:89-105 | a 200 carries the sanitized, normalised name, email and message the client sent; an email sent as `""` stays `""` |
| Routes.SubmittedPhoneIsSanitized | server/routes.ts:89-105 | a phone in a 200 is the sanitized, trimmed and filtered phone the client sent; one sent as `""` stays `""` |
| Routes.SubmittedDataWithinBounds | server/routes.ts:89-105 | what a 200 carries obeys the schema's length bounds, whatever the sanitizer does: name 2 to 50, email at most 100, message 10 to 500, phone (when present) at most 20 |
| Routes.HandleFormSubmission | server/routes.ts:68-110 | the limiter always moves as `Step` says; the response is `Respond`'s; only a 200 changes the store, adding the parsed body under the old counter |
| Routes.ListSubmissions | server/routes.ts:113-121 | every stored submission exactly once (a permutation of the insertion-order list), newest first, ties in insertion order |

## Left out

- JsString.ToLowerCase: only ASCII capitals are lowered. `toLowerCase` also maps other Unicode capitals, which the model does not capture.
- A Dafny `char` is a Unicode scalar value, so only strings without surrogates are modelled; there a character is one UTF-16 code unit, as JavaScript counts. Lone surrogates and characters outside the Basic Multilingual Plane (length 2 in JavaScript) are not modelled, nor is Unicode normalisation.
- `DOMPurify.sanitize` is an arbitrary total function parameter. Nothing is proved about what it strips. A throw inside it would be caught by the route and answered 500; the model does not capture that, so `Routes.StatusCauses` and `Routes.InternalErrorIff` give 500 only for a truthy non-string field.
- zod's email syntax check is an arbitrary predicate parameter.
- `fromZodError` message formatting is not modelled. The response carries the issue list (field, element index, kind).
- Express plumbing is not modelled: `createServer`, JSON serialisation, headers, `console.error` logging and `res.json` of the constant security-status flags. The inputs that `req.ip`, `req.connection.remoteAddress` and `req.get('User-Agent')` provide are parameters.
- `async` and promises are treated as synchronous. Concurrent requests interleaving are not modelled.
- The clock is not modelled. One reading `now` serves both the limiter's `Date.now()` and the store's `new Date()`, so no time passes within one request.
- RateLimit.BlockedHintBounds and RateLimit.StepKeepsWellFormed: the hint and window bounds assume the clock never goes back between requests (`last <= now`). `Date.now()` reads the wall clock, which can step back; then a window can end more than 60 000 ms ahead and `retryAfter` can exceed 60 (five requests at 60 000 followed by one at 0 give 120).
- JSON numbers are integers. Fractions and NaN are not modelled; they matter only for truthiness, and a truthy non-string field throws whatever its value.
- JavaScript numbers are doubles: the id counters of `MemStorage` and `Date.now()` lose integer precision beyond 2^53, while the model's `int` is unbounded.
- A request body that is not a JSON object (an array, say) is not representable by `Schema.Input`; zod rejects it with a single root `invalid_type` issue, which the model does not produce.
- Keys of the request body outside the five schema fields are not modelled. The parse strips them.
- The Drizzle `pgTable` definitions are not modelled. They only decide which record fields are nullable, which the `FormSubmission` datatype encodes.
- `Storage.MemStorage.CreateUser` does not enforce unique usernames, and neither does the store it models. The database's `unique()` constraint lives in the table definition, which is not part of this model.

## Notes on the code as written

- The `retryAfter` hint is 0, not positive, for a request that arrives exactly at `resetTime`. The entry is expired only when `now > resetTime`, so at equality it is still live (`RateLimit.ZeroHintAtWindowEnd`).
- The window is fixed, not sliding. It starts at the first request and does not move until it expires.
- The phone filter keeps spaces, dashes and parentheses, but the phone rule rejects them (`Sanitize.FormattedPhoneRejected`). A number typed as `+1 (555) 123-4567` is therefore refused whenever the HTML sanitizer leaves such plain text unchanged, as DOMPurify does (its behaviour is not modelled).
- `getUserByUsername` returns the user with the lowest id among those with the name.
- An email or phone sent as `""` is falsy. It skips the normaliser and reaches the schema as `""`.
