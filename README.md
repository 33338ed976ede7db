# Drink API: authorization pipeline, Drink table and routes

A Dafny model of the core of a small Flask resource server. The server keeps "drinks" and
guards its write routes with Auth0-issued JSON Web Tokens. The model has three parts.

- `Auth` (`auth.dfy`) covers `backend/src/auth/auth.py`.
  - Bearer-header extraction follows the code, not section 2.1 of RFC 6750: Python's
    `str.split(" ")` is modelled exactly as `Split`, so exactly one space is allowed.
    `Bearer ` with a trailing space yields the empty token.
  - The permission check lowercases the claim entries but not the required permission.
  - `VerifyDecodeJwt` is a method with the loop over the key set (RFC 7517). It keeps the
    LAST key whose `kid` (section 4.1.4 of RFC 7515) matches, and maps the JWT library's
    verdict to an `AuthError`.
  - `RequiresAuth` is the guard that `requires_auth` wraps around a handler.
  - The JWT library is an oracle, `Jose`. It has two functions: one reads a token's header
    without verifying it, the other is the RS256 decode with the audience and issuer checks.
    The key set is an input sequence, together with the oracle in an `Issuer`.
- `Models` (`models.dfy`) covers `backend/src/database/models.py`.
  - `Drink` keeps its recipe decoded. `None` stands for the JSON blob `"null"`, which is
    stored when a POST or PATCH body has no `recipe`.
  - `Short` and `Long` are the two views of a drink.
  - `DrinkTable` is a class standing for the database table. Its fields are a map from id to
    drink and the ids in ascending order, which is the order a full-table query returns.
    `Insert`, `Delete` and `Update` change those fields.
  - A new row's id is the largest id plus one, or 1 for an empty table (SQLite's rowid rule).
  - A title that is already in use is refused, as the UNIQUE constraint refuses it at commit.
- `Api` (`api.dfy`) covers `backend/src/api.py`.
  - Each route is a function or method that ends with `Responded(response)` or
    `Escaped(exception)`. `Escaped` means an exception leaves the view function.
  - A response is a status and a JSON body.
  - The error handlers and the 500 handler's re-dispatch are pure functions.
  - POST and PATCH/DELETE are methods on the table.
- `Wrappers` (`wrappers.dfy`) holds `Option`, `Result` and `Outcome`.

Behaviour of the code that the model keeps as written:
- With no key matching the token's `kid`, `verify_decode_jwt` returns `None`: the
  `if rsa_key:` at backend/src/auth/auth.py:65 falls through. The guard then raises 401
  `"Unauthorized"` (backend/src/auth/auth.py:98-99).
- The guard decorators on GET `/drinks-detail` and POST `/drinks` (backend/src/api.py:63 and
  88) run before the view's `try`, so their `AuthError` leaves the view function. The model
  reports these as `Escaped`.
- A title already in use on POST raises at commit inside `insert`, which none of the POST
  route's `except` clauses catches (backend/src/api.py:90-112), so it also leaves the view.
- A `"null"` recipe makes `short` raise when it iterates the recipe
  (backend/src/database/models.py:43), so GET `/drinks` raises.

## Model

| member | source | states |
|---|---|---|
| `Auth.Split` | backend/src/auth/auth.py:23 | Python's `split(" ")` result: at least one piece, no piece holds the separator, and joining the pieces with it gives back the input (`Join` is the inverse) |
| `Auth.GetTokenAuthHeader` | backend/src/auth/auth.py:19-26 | no header gives 401; a present header that is refused gives 400; an accepted header is a 6-letter scheme lowercasing to "bearer", one space and the returned token, which holds no space |
| `Auth.BearerRoundTrip` | backend/src/auth/auth.py:23-26 | any-case "Bearer", a space and a token without spaces yields exactly that token |
| `Auth.HeaderAcceptedIff` | backend/src/auth/auth.py:23-25 | a present header is accepted if and only if it is a "bearer" scheme (any case), one space and a rest without spaces |
| `Auth.CheckPermissions` | backend/src/auth/auth.py:29-41 | no `permissions` claim gives 400, before any match is tried; otherwise it returns true if and only if some entry's lowercase equals the permission, and 403 when none does |
| `Auth.UppercasePermissionNeverGranted` | backend/src/auth/auth.py:35 | a required permission containing an upper-case letter is never granted, because entries are lowercased and the permission is not |
| `Auth.SelectKey` | backend/src/auth/auth.py:56-64 | no key exactly when no key set entry has the kid; otherwise the key holds kty/kid/use/n/e of an entry with that kid after which no entry has it (the last match) |
| `Auth.DecodeVerdict` | backend/src/auth/auth.py:66-89 | the library's claims are returned unchanged on success; expired signature gives 401 "Expired token", any claims error the library reports (audience, issuer, nbf, iat, sub, jti, ...) gives 401 "Invalid claims", and every other failure gives 400 |
| `Auth.Verification` | backend/src/auth/auth.py:44-89 | an unreadable header escapes as a library error; a header without kid gives 401 "Invalid Header"; claims are returned only when the header names a kid, some key set entry matches it, and the library decodes the token with that key to exactly those claims |
| `Auth.VerifyDecodeJwt` | backend/src/auth/auth.py:44-89 | the header read, the scan of the whole key set keeping the last match, and the decode give exactly `Verification` (unreadable header escapes, no kid gives 401, no match gives no claims, otherwise the decode verdict) |
| `Auth.NoKidRejectedBeforeKeySearch` | backend/src/auth/auth.py:50-54 | a header without `kid` gives 401 "Invalid Header", and the result does not depend on the key set |
| `Auth.NoClaimsIffNoMatchingKey` | backend/src/auth/auth.py:56-65 | verification returns no claims and no error exactly when the header's kid matches no key |
| `Auth.DecodedWithLastMatchingKey` | backend/src/auth/auth.py:56-72 | the token is decoded with the key built from the last matching entry |
| `Auth.RequiresAuth` | backend/src/auth/auth.py:92-103 | the guard passes, so the handler runs, exactly when extraction succeeds, verification yields claims and the permission check returns true; otherwise it fails with the first failing step's error |
| `Auth.MissingHeaderRefused` | backend/src/auth/auth.py:20-22 | every guarded request without an `Authorization` header is refused with 401 |
| `Auth.WrongSchemeRefused` | backend/src/auth/auth.py:24-25 | `Authorization: Token abc` is refused with 400 "Authorization header malformed" |
| `Auth.UnknownKeyRefused` | backend/src/auth/auth.py:97-99 | a token whose kid names no known key is refused with 401 "Unauthorized" |
| `Auth.ExpiredTokenRefused` | backend/src/auth/auth.py:74-78 | an expired token is refused with 401 "Expired token" whatever permissions it carries |
| `Auth.ForbiddenOnlyAfterVerification` | backend/src/auth/auth.py:95-100 | a 403 arises only for a token that was extracted and verified, whose `permissions` claim is present and has no entry lowercasing to the permission |
| `Models.ShortRecipe` | backend/src/database/models.py:43 | same length as the recipe, and entry i carries the color and parts of recipe entry i |
| `Models.Short` | backend/src/database/models.py:38-48 | defined exactly when the recipe is not "null"; same id and title; entry i is `{color, parts}` of stored entry i, with no name |
| `Models.Long` | backend/src/database/models.py:50-58 | the long view carries the stored id, title and recipe unchanged |
| `Models.ShortProjectsLong` | backend/src/database/models.py:43-58 | the long view carries the stored id, title and recipe unchanged; the short view has the same id and title and is the color/parts projection of the long view's recipe |
| `Models.NextId` | backend/src/database/models.py:32 | the id given to a row inserted without one is greater than every id in the table |
| `Models.DrinkTable.constructor` | backend/src/database/models.py:18-24 | a freshly created table is empty and valid |
| `Models.DrinkTable.All` | backend/src/api.py:51 | a full-table query: one entry per stored id, the row stored under it; every stored drink appears; ids strictly ascending |
| `Models.DrinkTable.Get` | backend/src/api.py:118 | finds a drink exactly when its id is in the table, and the drink found carries that id |
| `Models.DrinkTable.Insert` | backend/src/database/models.py:60-67 | a duplicate title is refused with the table unchanged; otherwise the drink is stored under a fresh id, the other rows are unchanged, and the listing gains it at the end; titles stay unique |
| `Models.DrinkTable.Delete` | backend/src/database/models.py:69-74 | for an existing drink: afterwards it is absent and every other row is unchanged |
| `Models.DrinkTable.Update` | backend/src/database/models.py:76-80 | for an existing drink: a title used by another row is refused with the table unchanged; otherwise that row is replaced and no other changes |
| `Api.ErrorHandler` | backend/src/api.py:175-237 | handlers exist for exactly 400, 401, 403, 404, 405 and 422; each answers `{success: false, error: code}` with that same code as the status |
| `Api.InternalServerError` | backend/src/api.py:240-259 | an error whose `status_code` is 400, 401, 403, 404 or 405 gets that code's handler; anything else, including no `status_code` or 422, gets the 500 body |
| `Api.UnprocessableNotRedispatched` | backend/src/api.py:242-248 | a 422 that reaches the 500 handler is answered with 500, although a 422 handler exists |
| `Api.Abort` | backend/src/api.py:161-172 | aborting with a handled code answers with that status and an error body carrying the same code |
| `Api.Catch` | backend/src/api.py:161-172 | in the PATCH/DELETE route an AuthError surfaces with its own status, NotFound as 404 and any other exception as 500, always as an error body matching the status |
| `Api.ShortAll` | backend/src/api.py:51 | the short view of every drink, in order, defined exactly when no recipe is "null" |
| `Api.GetDrinks` | backend/src/api.py:48-59 | needs no authorization; given the table's listing (`DrinkTable.All`), answers 200 with the short view of each drink in that order; a "null" recipe makes it raise |
| `Api.GetDrinksDetail` | backend/src/api.py:62-84 | given the table's listing (`DrinkTable.All`), answers exactly when the `get:drinks-detail` guard passes, with 200 and the long view of each drink in that order; a guard refusal leaves the view |
| `Api.PostDrinks` | backend/src/api.py:87-112 | a guard refusal leaves the view with the table unchanged; a title in use leaves it as an integrity error; otherwise the drink with the body's title and recipe is stored under a fresh id and the response lists exactly its long view |
| `Api.Patched` | backend/src/api.py:147-149 | the patched drink keeps its id, takes the body's title only when one is given and the body's recipe always |
| `Api.DeleteDrink` | backend/src/api.py:122-137 | guard first; then a missing id raises NotFound; otherwise the drink is removed and its id returned |
| `Api.PatchDrink` | backend/src/api.py:141-159 | guard first; then a missing drink raises NotFound; otherwise the title is replaced only when the body gives one, the recipe always, and the id and other drinks are kept |
| `Api.DeleteOrPatchDrink` | backend/src/api.py:115-172 | guard refusals take precedence and surface with their own status and the table unchanged; then a missing id gives 404; then DELETE removes the drink, and PATCH updates it or answers 500 on a title clash |
| `Api.DeleteTwice` | backend/src/api.py:123-135 | an authorized DELETE of an existing drink answers 200 with its id; repeating it answers 404 |
| `Api.PostThenList` | backend/src/api.py:89-102 | a drink created by POST appears unchanged and last in GET `/drinks-detail`, and as its `{color, parts}` projection in GET `/drinks` |

## Left out

- Fetching the key set over the network (`urlopen`) and parsing it as JSON. The key set is an
  input sequence. Network failures are not modelled.
- RS256 signature checking (section 3.3 of RFC 7518) and the exp/aud/iss checks (sections
  4.1.4, 4.1.3 and 4.1.1 of RFC 7519). These belong to the JWT library and are the `decode`
  oracle's verdicts.
- Reading the token's header is the `unverifiedHeader` oracle. A header that cannot be read
  raises outside the pipeline's `try`. The model reports that as `JoseError`.
- Auth.Lower: ASCII only. Python's `lower()` applies Unicode case mapping, which is not
  modelled.
- Claims and key set entries of other shapes than a list of strings and complete key records
  are not modelled. Their outcomes in the code differ:
  - a string `permissions` claim is checked character by character, giving 403, or a grant
    when the permission is a single character;
  - an object `permissions` claim is checked over its keys, and can grant
    (`{"post:drinks": true}` passes);
  - a number or null `permissions` claim raises TypeError;
  - a key set entry without `kid` raises KeyError;
  - an entry whose `kid` does not match is skipped whatever else it lacks
    (backend/src/auth/auth.py:57), while a matching entry missing `kty`, `use`, `n` or `e`
    raises KeyError.
- Recipes other than null or a list of `{color, name, parts}` records are not modelled. POST
  and PATCH store whatever recipe the body holds (backend/src/api.py:94 and 149): a single
  object, a string, or entries without `color` or `parts`. `short` raises on each of these
  (backend/src/database/models.py:43), so GET `/drinks` fails once one is stored.
- JSON encoding of the recipe blob and of responses is not modelled. Recipes are kept
  decoded, and `parts` is an integer (JSON numbers may be fractional).
- Request bodies that are not JSON objects are not modelled.
- The column length limits (80 and 180 characters) are not modelled, since SQLite does not
  enforce them.
- Models.DrinkTable.Insert: only inserts without an explicit id are modelled. Those are the
  only inserts the routes make. The explicit-id case of "a unique or null id" is not covered.
- The SQLAlchemy session, `setup_db` and the Flask/CORS setup are not modelled. Transactions
  are not modelled either: each table method is one commit.
- What Flask does with an exception that leaves a view function is not modelled. This covers
  a guard refusal on GET `/drinks-detail` and POST `/drinks`, a title clash on POST, and a
  "null" recipe on GET `/drinks`. Which handler runs depends on the Flask version.
- 405 for methods a route does not accept, and 404 for paths that match no route, come from
  Flask's routing and are not modelled.
- `requires_auth` passes the route's arguments on to the handler but not the decoded payload.
  The guarded handlers use nothing from the guard, so the guard is modelled as the decision
  to run them. Each route runs its handler body only when `RequiresAuth` passes, and
  runs it once.
- The debug `print` in `short` and `__repr__` are not modelled.
- The configuration in `backend/src/config.py` and `frontend/src/environments/environment.ts`
  holds only constants and is not modelled. The issuer domain, algorithm list and audience
  are folded into the `decode` oracle.
