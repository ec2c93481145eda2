# URL shortener request handlers, modelled in Dafny

This project models the request handlers of a small URL shortener, an Express
application backed by a MongoDB collection of `ShortUrl` records and a Redis
cache. It covers four handlers and one middleware:

- `GET /`: the listing page. It is cache-aside. It reads the cache key
  `'urls'`, serves a live entry as is, and on a miss queries the store,
  writes the listing back with a 3600-second expiry and serves it.
- `POST /shortUrls`: creation, behind the `authenticate` middleware.
- `GET /api/shortUrls`: a direct, uncached listing.
- `GET /:shortUrl`: the redirect. It looks up the code, answers 404 when the
  code is unknown, and otherwise counts one click and redirects to the
  destination.
- `authenticate`: takes the bearer token from the `Authorization` header,
  verifies it, sets `req.user` and calls `next()`, or answers 401.

Files and modules:

- `wrappers.dfy` (`Wrappers`): `Option`.
- `url_records.dfy` (`UrlRecords`): the record, the `findOne` lookup, the
  click increment, repeated visits and the record invariants.
- `http.dfy` (`Http`): responses as values.
- `listing_cache.dfy` (`ListingCache`): the cache entry, TTL lookup and fill.
- `auth.dfy` (`Auth`): `split(' ')` and its inverse, token extraction, the
  middleware's decision, and the `Request` object with `Authenticate`.
- `server.dfy` (`Server`): class `App`, which holds the store's collection
  (`records`) and the cache slot (`cache`). It also holds two ghost fields:
  a log of every store and cache call, so that "the store is not queried"
  can be stated, and the set of every listing the store has held.
  `App.Valid()` says the cache only ever holds one of those listings:
  possibly stale, never invented. The constructor starts the history at the
  initial store, and every handler that may change the store adds the store's
  new content to it. Each handler is a method.

The collaborators are abstract:

- The clock is an explicit `now` argument in seconds.
- Whether each awaited store or cache call rejects is a `Faults` argument.
- The store's generated short code is an argument of the creation handler.
- `jwt.verify(token, secret)` at the current time is a total function
  `verify: string -> Option<Claims>`. `None` stands for the call throwing.

The model follows these behaviours of the code:

- On a cache read or write failure, the listing handler answers
  500 `'Internal server error'`. It does not fall back to the store.
- Creation does not invalidate the cache entry. A live listing entry keeps
  omitting new records until it expires, as the client method
  `Server.StaleListingWithinTheHour` shows.
- The handlers `GET /api/shortUrls` and `GET /:shortUrl` have no `catch`.
  A rejected store call there is modelled as `Response.Unhandled` (no answer
  from the handler), not as a 500.

## Model

| member | source | states |
|---|---|---|
| `UrlRecords.FindFirst` | server.js:109 | `findOne({ short })` gives the first record, in store order, whose `short` is the code, or `None` exactly when no record has that code |
| `UrlRecords.Clicked` | server.js:112-113 | the matched record's `clicks` rises by exactly one; its `full` and `short`, the length and every other record are unchanged |
| `UrlRecords.VisitEffect` | server.js:109-113 | a redirect for an unknown code leaves the store unchanged; for a known code it changes only the first match's `clicks` (+1); records are never lost or moved, `full` and `short` never change, and `clicks` never falls |
| `UrlRecords.VisitCountsOnce` | server.js:109-113 | one more redirect through a code whose record has counted n clicks leaves it at n + 1 clicks with everything else unchanged |
| `UrlRecords.CountedKeepsMatch` | server.js:109 | after any number of counted clicks, the code still resolves to the same record |
| `UrlRecords.RepeatedVisits` | server.js:108-116 | N sequential redirects through a known code raise that record's `clicks` by exactly N and leave every other record, and that record's `full` and `short`, unchanged |
| `UrlRecords.RepeatedMisses` | server.js:109-110 | N sequential requests for an unknown code leave the store unchanged |
| `UrlRecords.FindFirstSameCodes` | server.js:109 | stores listing the same codes in the same order answer every lookup alike, so counting clicks never changes which record a code resolves to |
| `UrlRecords.ClicksGrowTransitive` | server.js:112 | the record invariants (no record lost, `full`/`short` fixed, `clicks` non-decreasing) compose over two consecutive handler calls |
| `UrlRecords.VisitsGrow` | server.js:108-116 | over any run of redirects through one code, no record is lost or moved, `full` and `short` stay fixed and `clicks` never falls |
| `UrlRecords.Visit` | server.js:109-113 | the store after one redirect request keeps its length and the record invariants; an unknown code leaves it equal; a known code adds one click to the first match and leaves every other record equal |
| `ListingCache.Lookup` | server.js:40-41 | a cache read hits only for a present entry before its expiry time and then returns exactly the stored snapshot; every present, unexpired entry hits |
| `ListingCache.Fill` | server.js:46-48 | the entry written with `EX: 3600` at time now reads back as the listing at every time in [now, now + 3600) and misses at every time from now + 3600 on |
| `ListingCache.FillThenLookup` | server.js:40-48 | a listing written with `EX: 3600` at time t is read back unchanged exactly while now < t + 3600 and is absent from then on |
| `Auth.Split` | middleware/auth.js:5 | `split(' ')` yields at least one piece and no piece contains a space |
| `Auth.JoinSplit` | middleware/auth.js:5 | joining the pieces with single spaces gives back the header |
| `Auth.SplitJoin` | middleware/auth.js:5 | splitting a join of space-free pieces gives back those pieces, so the split is the exact inverse of the join |
| `Auth.SplitAfterWord` | middleware/auth.js:5 | a space-free first word followed by a space is the first piece and the rest splits independently |
| `Auth.SplitWord` | middleware/auth.js:5 | a space-free header is a single piece, hence carries no token |
| `Auth.ExtractToken` | middleware/auth.js:5-7 | a token exists only for a present header and is non-empty and space-free |
| `Auth.TokenOfPieces` | middleware/auth.js:5-7 | for every header, the token is exactly its second space-separated piece when that exists and is non-empty, and there is none otherwise |
| `Auth.TokenExamples` | middleware/auth.js:5-7 | `"Bearer abc"` and `"Bearer abc def"` give `abc`; `"Bearer"`, `"Bearer  x"`, the empty header and no header give no token |
| `Auth.UserOf` | middleware/auth.js:13 | `decoded.userId` is present exactly when the payload has a `userId` property, and is then its value |
| `Auth.Decide` | middleware/auth.js:5-16 | the middleware admits only when a token was extracted and verifies, and every refusal carries status 401 |
| `Auth.AdmitIffVerified` | middleware/auth.js:11-14 | control passes on if and only if a token was found and verifies; the identity attached is the payload's `userId` |
| `Auth.RefusalsDifferOnlyInMessage` | middleware/auth.js:7-16 | both refusals are 401 JSON under `message`; the text is the no-token message exactly when no token was found and the invalid-token message exactly when one was |
| `Auth.SignupTokenAttachesNoUser` | middleware/auth.js:12-13 | a verified payload without `userId`, such as the `{id, iat, exp}` payload issued at server.js:73, is admitted with `req.user` left undefined |
| `Auth.Authenticate` | middleware/auth.js:4-18 | `next` is called iff the decision admits; then `req.user` is set and nothing is sent; otherwise the 401 response is returned and `req.user` is untouched |
| `Server.App.Home` | server.js:36-54 | a cache hit serves the stored snapshot with one cache read and no store query; a miss queries the store, writes the listing under `'urls'` expiring at now + 3600 and serves that same listing; any rejected call answers 500 `'Internal server error'` with no fall-back; the store never changes |
| `Server.App.CreateShortUrl` | server.js:91-97 | on success exactly one record `{full, code, clicks 0}` is appended and the answer redirects to `/`; on a rejected create the answer is 500 `'Failed to create short URL'` and the store is unchanged; the cache is never touched |
| `Server.App.PostShortUrls` | server.js:87-98 | a request the middleware refuses gets its 401 with no store or cache call; an admitted one runs creation with `req.user` set |
| `Server.App.ApiShortUrls` | server.js:101-105 | answers the store's current listing with one store query and no cache call; a rejected query leaves the request unanswered |
| `Server.App.Resolve` | server.js:108-116 | an unknown code answers 404 with the store unchanged; a known one leaves the store as `Visit` gives it (only the first match's `clicks` +1), saves that record and redirects to its `full`; the cache is never consulted |

## Left out

- Startup and wiring are not modelled: the database and cache connections, the session, CORS, body parsers, static files, the `'*'` catch-all, `app.listen` and logging. These are I/O with no logic.
- Route precedence is not modelled. `GET /signup`, `GET /login` and the `/api/auth` router are registered before `/:shortUrl`, so a record with one of those codes can never be reached. `/:shortUrl` also matches one path segment only.
- The signup and login handlers are not modelled. Their router, the user model and password hashing are not part of this model.
- JWT cryptography, the secret and token expiry are not modelled. `verify` is an arbitrary total function, so wrong-secret or expired tokens are covered only as `verify` returning `None`.
- Only object payloads are modelled (`Claims` is a map from property name to string). A string payload, or a non-string `userId`, is not.
- Short-code generation and the schema are not modelled. The code is an argument, `clicks` starts at 0, and `_id` is not kept. Validation of `full` (for example a missing `req.body.full`) is part of the unseen schema. It shows up only as `Faults.create`.
- `JSON.stringify` and `JSON.parse` are taken as the identity on the listing.
- UrlRecords.Clicked: `clicks` is an unbounded `nat`. In the source it is a JavaScript Number (a double), and `clicks++` stops changing at 2^53, so "exactly one more click" holds there only below 2^53.
- UrlRecords.RepeatedVisits: for the same reason, "exactly N more clicks" holds in the source only while the count stays below 2^53.
- UrlRecords.FindFirst: the store's order is taken to be insertion order. `Server.App.CreateShortUrl` appends at the end, and `findOne()` and `find()` are read in that order. MongoDB does not guarantee that its natural order is insertion order.
- Server.App.Resolve: the `save()` that is not awaited is taken to complete. A save that rejects is not modelled. In the source it would lose the click but still redirect.
- Concurrency is not modelled. Requests run one after another, so the lost-update race on `clicks++` and racing cache misses are not captured.
- Redis internals are not modelled. The entry is a single slot with an expiry time, and other keys are not represented.
- The framework's handling of a rejected async handler is not modelled. It depends on the Express version, which is not shown.
