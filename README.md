# simple-crud: guard, user handlers and filter proxy

A Dafny model of the request logic of a small Express service (`app.js`).
The service has three parts:

- a bearer-token guard (`authenticateToken`) in front of the `/users` routes;
- the `/login` and `/users` CRUD handlers over a MySQL `users` table;
- a `/filter` route that fetches a pipe-separated text table from an
  upstream URL, parses it into records and filters them by query parameters.

Everything the service does through a library or the network is an input
here. The decoded `Authorization` header, the query parameters, the request
body and the result the database hands to a callback are all parameters. So
are `jwt.sign` and `jwt.verify`, passed as functions, and the upstream
document, passed as an `Upstream` value. Writes to `res` and the call to
`next()` are modelled as returned values:

- `Outcome` pairs the response with the statement sent to the database;
- `GuardDecision` either rejects the request or lets it through with an
  identity;
- `FilterResponse` is the `/filter` reply.

Modules:

- `Wrappers`: `Option`, which stands for `undefined` versus a value, and
  JavaScript truthiness of such a string.
- `JsString`: the JavaScript string operations the code uses. These are
  `split` with a one-character separator, its inverse `join`,
  `toLowerCase` and `includes`. `Split` and `Join` are proved mutually
  inverse. `Split` gives one piece per separator, plus one.
- `Api`: rows, token claims, the parameterised statements, the JSON
  payloads and responses.
- `Auth`: token extraction, the guard's decision, and a protected route.
- `Users`: the six handlers. There is also a lemma that a token from a
  successful login gets through the guard with the first row's identity.
- `FilterProxy`: line and cell parsing, the record filter, and the route.

Behaviours of the code worth noting, all modelled as written:

- Rows may have fewer cells than there are columns. A missing cell is
  `undefined`, and a missing column name becomes the property name
  `"undefined"`.
- Login issues a token for the first row of any non-empty result, not only
  for exactly one match.
- An empty second word in the `Authorization` header (for example
  `"Bearer "`) is also a 401.
- `PUT /users/:id` does not check its body. Absent fields are bound to the
  statement as they are.
- For string query parameters (see "## Left out"), parsing and filtering
  never fail once `DATA` is a string. The only 500s of `/filter` then come
  from the fetch, from the JSON decoding, or from a `DATA` that is not a
  string.

## Model

| member | source | states |
|---|---|---|
| JsString.Split | app.js:162-166 | `split` never returns an empty list: there is always at least one piece |
| JsString.SplitPiecesSeparatorFree | app.js:162-166 | no piece of a split contains the separator |
| JsString.SplitCount | app.js:162 | the number of pieces is the number of separator occurrences plus one |
| JsString.JoinSplit | app.js:162-166 | joining the pieces of a split with the separator restores the string |
| JsString.SplitJoin | app.js:162-166 | splitting the join of separator-free pieces gives those pieces back |
| JsString.SplitWithoutSeparator | app.js:35 | a string without the separator splits into itself alone |
| JsString.SplitAround | app.js:162 | a separator between two strings splits the whole into the pieces of the first followed by the pieces of the second |
| JsString.Lower | app.js:177 | ASCII `toLowerCase` keeps the length, leaves no upper-case letter, turns each upper-case letter into its lower-case counterpart and keeps every other character |
| JsString.Includes | app.js:177 | `includes` of the empty string always holds, and a found needle is no longer than the haystack |
| JsString.LowerIdempotent | app.js:177 | lower-casing twice equals lower-casing once |
| JsString.IncludesIffOccurs | app.js:177 | `includes` holds exactly when the needle occurs at some position of the haystack |
| Auth.ExtractToken | app.js:34-37 | a token that gets past the `!token` test is a non-empty word without spaces; no header or an empty header gives none |
| Auth.TokenIsSecondWord | app.js:35 | whatever the first word is, the token is the second space-separated word; an empty second word is no token |
| Auth.ExtractedTokenIsSecondWord | app.js:35 | any extracted token is exactly the second word: the header is a space-free word, a space, the token, then nothing or another space |
| Auth.NoSpaceIsUnauthenticated | app.js:35-39 | a header without a space gives 401 with no statement issued |
| Auth.SchemeIsNotChecked | app.js:35 | the scheme word is ignored: `Basic x` yields the token `x` |
| Auth.Authenticate | app.js:33-48 | the guard rejects only with 401 "Access denied. No token provided." or 403 "Invalid token."; 401 exactly when there is no token; 403 exactly when a token is present and verification fails; a token that verifies always gets through, carrying exactly the decoded identity |
| Auth.Serve | app.js:33-48 | a rejected request gets exactly the guard's own response (401 "Access denied. No token provided." or 403 "Invalid token.") and issues no statement; an accepted one is exactly the handler run once on the decoded identity |
| Users.Login | app.js:51-82 | status is 200, 400, 401 or 500; it gives 400 "Username and password are required." with no lookup exactly when a field is missing or empty; the lookup binds the body's fields; 500 "Internal server error." exactly on a lookup error; 401 "Invalid username or password." exactly on no row; 200 "Login successful!" with a token exactly when rows came back, signed over the first row's id and username |
| Users.ListUsers | app.js:85-93 | issues `SELECT *`; gives 500 "Database error." exactly on error; otherwise 200 with every row |
| Users.GetUser | app.js:96-108 | issues the lookup by id; 500 "Database error." exactly on error, 404 "User not found." exactly on no row, otherwise 200 with exactly the first row |
| Users.CreateUser | app.js:111-125 | gives 400 "Username and password are required." with no insert exactly when a field is missing or empty; the insert binds the body's fields; 500 "Database error." exactly on an insert error; 201 exactly on a successful insert, carrying the generated id |
| Users.UpdateUser | app.js:128-139 | the update always runs, with the body's fields as given; 200 "User updated successfully." exactly when it does not fail, otherwise 500 "Database error." |
| Users.DeleteUser | app.js:142-152 | the delete always runs; 200 "User deleted successfully." exactly when it does not fail, otherwise 500 "Database error." |
| Users.WritesIgnoreRowsAffected | app.js:132-151 | update and delete answer the same whether or not a row was touched |
| Users.LoginTokenPassesGuard | app.js:65-76 | if the verifier accepts what the signer produces, a login token presented as `Bearer <token>` gets through the guard with the first row's id and username |
| FilterProxy.Lines | app.js:162 | there is one line per newline in the document, plus one |
| FilterProxy.Headers | app.js:163 | the column names are the `\|`-separated cells of the first line: one more than its `\|` count, none containing `\|` or a newline |
| FilterProxy.ParseRecord | app.js:165-171 | a record has exactly the first three column names as properties (a missing name is "undefined") |
| FilterProxy.Parse | app.js:162-172 | there is one record per newline character, that is, one per line after the header |
| FilterProxy.RecordField | app.js:166-171 | the property of column i holds cell i of the line, or `undefined` if the line is shorter, unless a later column has the same name (last write wins) |
| FilterProxy.TrailingNewlineAddsRecord | app.js:162-172 | a trailing newline appends one extra record, parsed from an empty line |
| FilterProxy.LinesOfRender | app.js:162 | splitting a well-formed document on newlines gives back its lines |
| FilterProxy.RecordOfRenderedRow | app.js:166-171 | a row joined with `\|` parses back to its first three cells under the first three column names |
| FilterProxy.ParseRendered | app.js:162-172 | parsing a well-formed table gives back, in row order, each row's first three cells under the column names; later cells are ignored |
| FilterProxy.NameValue | app.js:176 | `item.NAMA \|\| ''` is empty exactly when NAMA is missing, `undefined` or empty, and is NAMA otherwise |
| FilterProxy.Matches | app.js:175-181 | with no truthy filter every record passes; a truthy `name` rejects every record whose NAMA is missing, `undefined` or empty; a kept record has NIM and YMD equal to the truthy `nim` and `ymd` filters |
| FilterProxy.FilterRecords | app.js:175-182 | the kept records are an order-preserving subsequence of the input; each satisfies every active filter; each matching record is kept as often as it occurs |
| FilterProxy.NoFiltersKeepAll | app.js:176-181 | with every filter absent or empty, nothing is dropped |
| FilterProxy.FilterMonotone | app.js:176-181 | adding filters only shrinks the result, to a subsequence of the former one |
| FilterProxy.NameFilterIgnoresCase | app.js:177 | a `name` filter and its lower-cased form keep the same records |
| FilterProxy.NameOnlyIsSubstringSearch | app.js:177 | with only `name` given, a record is kept exactly when the lower-cased name occurs in its lower-cased NAMA |
| FilterProxy.FilterEndpoint | app.js:154-195 | 500 "Something went wrong!" exactly when the fetch fails or `DATA` is not a string; otherwise at most one record per newline, an order-preserving subsequence of the parsed records holding every matching record as often as it occurs and nothing else |
| FilterProxy.EndpointWithoutFilters | app.js:159-186 | with no query parameters the route returns every parsed record |

## Left out

- Express setup, routing, body parsing and `app.listen` are framework I/O. The model starts from the decoded header, body, route parameter and query.
- The MySQL connection and the SQL statements are not executed. A handler receives the result its callback would get, and records the statement it sends. So end-to-end properties that need a database are not stated, such as a created user later being read back, or a deleted one giving 404.
- `jwt.sign` and `jwt.verify` are parameters. Signing keys, signatures and the one-hour expiry are library code and time.
- The network `fetch` and `response.json()` are reduced to an `Upstream` value. It is a failure, or an object whose `DATA` is a string or not.
- Console logging and the asynchronous callbacks are left out. Each request is modelled as one evaluation.
- JsString.Lower: `toLowerCase` maps only the ASCII letters A to Z. The full Unicode case mapping is not modelled.
- Request fields and query parameters are modelled as absent or a string. JSON numbers, booleans and `null` are not modelled, nor are array or object query values (`?name=a&name=b`, `?name[x]=1`). For such a `name`, `name.toLowerCase()` throws inside the `try` and the route answers 500 as soon as one record exists; the model does not cover that path. Truthiness is taken as "present and not empty".
- The JSON encoding of responses is not modelled. In particular `res.json` drops `undefined` properties of a record and orders integer-like property names first.
- Line endings other than `\n` are not special. A `\r` before the newline stays in the last cell, as in the code.
- The password is compared and stored in plain text, as the code does. The model records the bound values and adds no hashing.
