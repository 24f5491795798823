# TinyUrl short-code allocation and click tracking, in Dafny

This project models the core of a URL-shortening service and proves its contracts. The service maps short codes to target URLs, redirects visitors and counts their clicks. Four parts are modelled:

- **Code generator** (`CodeGenerator`). It builds random codes from the 62-character alphabet `A-Z a-z 0-9` and checks user-supplied codes against `^[A-Za-z0-9]{6,8}$`. The random source is an oracle: a sequence `draws` of indices in `[0, 62)`, one per generated character.
- **URL normaliser** (`UrlValidator`). It trims the input and puts `https://` in front unless it already starts with `http://` or `https://`. `IsValidUrl` does the same prefixing and hands the result to the `validator` library's URL check. That check is the parameter `isURL`, and nothing is assumed about it.
- **Link registry** (`LinkStore`, `LinksApi`). The database table is the class `LinkStore.Store`, holding a `map<string, Link>` keyed by short code. Its four methods mirror the routes' `create`, `update`, `delete` and `findMany` calls. A `findUnique` call is a lookup in that map. The `/api/links` handlers are methods that take the store: create, list newest first, get by code, delete by code.
- **Redirect resolver** (`RedirectRoute`). `Resolve` handles `GET /:code`:
  1. It turns away reserved path segments, case-insensitively.
  2. It looks up the code.
  3. It records the click.
  4. Only then does it check that the trimmed stored target has a scheme.

`Http.Response` has one constructor per distinct response, and `Status()` gives each one's HTTP status code. `Scenarios` chains the handlers:
- create, then fetch, then visit, then fetch again;
- create with a generated code, then visit;
- the `example.com` walk-through;
- deleting the same code twice.

Those proofs use only the handlers' contracts.

Request-body values are JavaScript values (`JsValues.Value`), so the handlers keep their truthiness tests:
- A custom `code` that is missing, `""`, `0`, `false` or `null` means "generate one".
- A truthy custom code that is not a string is a 400.

The handlers get their time stamps (`now`) and their random draws as parameters. Row identifiers come from a counter in the store.

Shown along the way:
- A generated code and a custom one pass the same format check.
- A normalised URL always passes the redirect-time scheme check. So a store whose rows all came through the create handler never produces the 500 "invalid target" outcome.
- `HealthZ`, like every other spelling of `healthz`, is a valid custom code that the create handler accepts. routes/redirect.js still answers 404 for it, because `healthz` is a reserved path (`RedirectRoute.ShadowedValidCode`). In the running server such a request never reaches that route: Express matches paths case-insensitively by default, so the `/healthz` handler registered earlier in server.js answers every spelling. A generated code can spell it too. `Scenarios.CreateGeneratedThenVisit` therefore promises a redirect only for codes that are not reserved.

The service's design describes click accounting as fail-open and a late unique-index violation as a 409. The model follows routes/redirect.js and routes/api/links.js, which do neither:
- A failure of the click update is not fail-open. The update throws, and the catch block in routes/redirect.js answers 500. Storage faults are left out (see below).
- A late unique-index violation is not surfaced as 409. It would reach the catch block of routes/api/links.js as a 500. It cannot happen in this sequential model.

## Model

| member | source | states |
|---|---|---|
| JsStrings.TrimStart | utils/urlValidator.js:36 | the result is a suffix of the input, everything dropped is white space, and it does not start with white space |
| JsStrings.TrimEnd | utils/urlValidator.js:36 | the result is a prefix of the input, everything dropped is white space, and it does not end with white space |
| JsStrings.Trim | utils/urlValidator.js:36 | `trim` leaves no white space at either end, and leaves a string without edge white space unchanged |
| JsStrings.TrimIsSlice | utils/urlValidator.js:14 | what `trim` keeps is one contiguous slice of the input, and only white space is dropped on either side |
| JsStrings.ToLower | routes/redirect.js:15 | lower-casing keeps the length, leaves no ASCII upper-case letter, and changes a character exactly when it was upper case |
| JsStrings.ToLowerMatches | routes/redirect.js:15 | for a target without upper-case letters, `s.toLowerCase()` equals it exactly when s has its length and each character is the target's or that letter's upper-case partner |
| CodeGenerator.AlphabetEntry | utils/codeGenerator.js:7 | the alphabet has 62 entries: `A` to `Z`, then `a` to `z`, then `0` to `9`, each range in order |
| CodeGenerator.AlphabetIsAlphanumeric | utils/codeGenerator.js:7 | every one of the 62 alphabet characters is in `[A-Za-z0-9]` |
| CodeGenerator.AlphabetIsExactlyAlphanumeric | utils/codeGenerator.js:7 | a character is in the alphabet if and only if it is in `[A-Za-z0-9]` |
| CodeGenerator.GenerateShortCode | utils/codeGenerator.js:6-14 | the code has exactly the requested length (none for a negative length), character i is the alphabet entry chosen by draw i, and every character is alphanumeric |
| CodeGenerator.GenerateDefaultShortCode | utils/codeGenerator.js:6 | called without a length, the generator produces 7 characters |
| CodeGenerator.AlphanumericRunExactly | utils/codeGenerator.js:28-29 | the left-to-right matcher for `[A-Za-z0-9]{lo,hi}` with anchors accepts exactly the strings of lo to hi class characters |
| CodeGenerator.ValidShortCodeExactly | utils/codeGenerator.js:22-30 | `isValidShortCode(c)` holds if and only if c is a string of 6 to 8 characters, all in `[A-Za-z0-9]` |
| CodeGenerator.EmptyOrNonStringIsInvalid | utils/codeGenerator.js:23-25 | empty and non-string input is never a valid code |
| CodeGenerator.SpelledCodeIsValid | utils/codeGenerator.js:6-29 | any code spelled by 6 to 8 draws, the default 7 included, passes `isValidShortCode` |
| UrlValidator.IsValidUrl | utils/urlValidator.js:8-24 | false for falsy or non-string input; otherwise equal to `isURL` applied to exactly the string `normalizeUrl` produces |
| UrlValidator.NormalizeUrl | utils/urlValidator.js:31-42 | falsy or non-string input is returned unchanged; a string becomes `trim(u)` or `"https://" + trim(u)`; the result starts with a scheme and has no edge white space; it equals `trim(u)` if and only if `trim(u)` already had a scheme |
| UrlValidator.NormalizeUrlIdempotent | utils/urlValidator.js:31-42 | normalising twice gives the same value as normalising once |
| UrlValidator.NormalizedUrlIsRedirectable | utils/urlValidator.js:36-41 | a normalised URL is unchanged by the redirect route's `trim`, and passes its scheme check |
| LinkStore.InsertAddsOne | routes/api/links.js:97-101 | putting a row into the newest-first list gives the old list plus that row, as a multiset |
| LinkStore.InsertKeepsNewestFirst | routes/api/links.js:97-101 | putting a row into a list ordered by `createdAt` descending keeps it so ordered |
| LinkStore.InsertKeepsCodesDistinct | routes/api/links.js:97-101 | inserting a row whose code is new keeps every code in the list distinct |
| LinkStore.Store.Insert | routes/api/links.js:68-74 | `create` adds exactly one row under a code that was absent: fresh id, the given target and click count, no last click, both timestamps `now`; every other row is unchanged |
| LinkStore.Store.RecordClick | routes/redirect.js:32-40 | the atomic update raises `totalClicks` by exactly 1 and sets `lastClickedTime` (and `updatedAt`) to `now`; no other row and no other field changes |
| LinkStore.Store.Remove | routes/api/links.js:165-167 | `delete` removes exactly the given key and nothing else |
| LinkStore.Store.FindManyNewestFirst | routes/api/links.js:97-101 | `findMany` ordered by `createdAt` descending returns every stored row exactly once and nothing else, newest first |
| LinkStore.SortNewestFirst | routes/api/links.js:97-101 | ordering a table keyed by short code yields each stored row exactly once and nothing else, newest first, with distinct codes |
| LinksApi.Candidate | routes/api/links.js:49 | the candidate on attempt j is a 7-character code that passes `isValidShortCode` |
| LinksApi.CandidateDraws | routes/api/links.js:49 | the draws left for attempt j begin with the seven that spell candidate j |
| LinksApi.ProbeForFreeCode | routes/api/links.js:44-58 | at most 10 candidates are probed; every one counted as an attempt was already in the store; fewer than 10 attempts means the code returned is the next candidate, and it is free |
| LinksApi.Create | routes/api/links.js:11-89 | 400 for an invalid URL; 400 for a badly formatted custom code; 409 for a taken custom code; with no custom code, 500 exactly when all 10 candidates collide, otherwise the first free candidate; each failure leaves the store unchanged; a 201 adds exactly one row, under a previously absent and valid code, with `targetUrl == normalizeUrl(url)` and zero clicks; the store invariant and "every target redirectable" are preserved |
| LinksApi.List | routes/api/links.js:95-110 | the response lists every stored row exactly once and nothing else, ordered by `createdAt` descending, with status 200 |
| LinksApi.GetByCode | routes/api/links.js:116-145 | the row stored under the code (with that `shortCode`) and status 200 if there is one, else 404 |
| LinksApi.DeleteByCode | routes/api/links.js:151-176 | 204 and exactly that key removed when present; 404 and the store unchanged when absent; the code is absent afterwards |
| RedirectRoute.Resolve | routes/redirect.js:9-70 | reserved codes (case-insensitive) and unknown codes give 404, store unchanged; a known code gets exactly one more click and its last-click time, whatever the outcome; the answer is a 302 to `trim(target)` if and only if that has a scheme, else the 500 invalid-target outcome; if every stored target was redirectable, it stays so and the 500 cannot occur |
| RedirectRoute.TargetPreserved | routes/redirect.js:32-43 | updating a row without touching its target keeps every stored target redirectable |
| RedirectRoute.ReservedValidCodeIsHealthz | routes/redirect.js:14-15 | the only valid short codes that are also reserved paths are spellings of `healthz` |
| RedirectRoute.ShadowedValidCode | routes/redirect.js:14-15 | `HealthZ` is a valid custom code and also a reserved path |
| Http.StatusClasses | routes/api/links.js:17-169 | the status code sorts the outcomes (the redirect route sets its 404s, 500 and 302 at routes/redirect.js:16-63): 2xx exactly for the success responses, 302 exactly for a redirect, 4xx exactly for a request at fault (a 404 exactly for "not found", a 201 exactly for "created"), 500 exactly for ten colliding codes or a stored target without a scheme |
| Scenarios.CreateFetchVisit | routes/api/links.js:68-74 | a link created with a fresh custom code is fetched at once with that code and its normalised target; unless the code is reserved, a visit redirects there and the next fetch shows exactly one click |
| Scenarios.CreateGeneratedThenVisit | routes/api/links.js:44-74 | with no custom code the outcome is 201 or the 500 exhaustion outcome; a created, non-reserved code redirects to the normalised target and counts one click |
| Scenarios.VisitNormalized | routes/redirect.js:43-63 | a row whose target came from `normalizeUrl` never hits the invalid-target branch: a non-reserved visit redirects to it and counts one click |
| Scenarios.ExampleDotCom | routes/api/links.js:22 | `{url: "example.com", code: "abc1234"}` gives 201 with target `https://example.com` and no clicks; then `GET /abc1234` is a 302 there, and the stats show one click with status 200 |
| Scenarios.ExampleUrlNormalized | utils/urlValidator.js:37-38 | `example.com` normalises to `https://example.com` |
| Scenarios.ExampleCodeUsable | utils/codeGenerator.js:28-29 | `abc1234` is a valid code and not a reserved path |
| Scenarios.DeleteTwice | routes/api/links.js:155-169 | deleting the same code twice: the first answer is 204 if the code was present, and the second is always 404 |

## Left out

- The HTTP server setup in server.js is not part of this model. That covers middleware, the EJS dashboard and stats pages, the `/healthz` handler, `listen` and the signal handlers. What matters from it is that routes registered before the redirect router shadow it, which is why the reserved list exists.
- test-db.js and setup.js are environment and connection checks, pure I/O, and are not part of this model.
- `validator.isURL` is a foreign library. It is the uninterpreted parameter `isURL`, standing for the call with the options `protocols: [http, https]`, `require_protocol: false` and `require_valid_protocol: true`.
- `Math.random` is an oracle sequence of indices in `[0, 62)`. Its distribution, and so the collision probability, is not modelled.
- The database is an in-memory map. The row identifier is a store counter, because the schema's identifier scheme is not part of this model. `createdAt`, `updatedAt` and `new Date()` are integers supplied by the caller. The click update is modelled as also refreshing `updatedAt`, as a storage-managed timestamp would.
- Concurrency is left out: the race between the create handler's pre-check and the unique index, and parallel clicks on one code. The model is sequential, and each database call is one atomic step. `LinkStore.Store.Insert` therefore requires the code to be absent, as the pre-check guarantees.
- Storage faults are left out, along with the catch blocks that turn them into 500 responses, and logging. JSON error wording is left out too: each error is one `Response` constructor.
- `LinksApi.Create`: the 201 response carries the whole row, while routes/api/links.js sends only `id`, `shortCode`, `targetUrl`, `totalClicks` and `createdAt`.
- `trim` removes ASCII white space only, and `toLowerCase` folds ASCII letters only. Unicode white space and case mapping are not modelled.
- JavaScript numbers are integers in `JsValues.Value`, so `NaN` (falsy) and fractional values are not modelled. That includes a fractional length given to `generateShortCode`.
- Express path-parameter decoding is left out. The `:code` segment reaches the handlers as a string.
