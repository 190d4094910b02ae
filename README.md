# Daily-diet meal API: a Dafny model of its guarded meal routes

The service keeps two tables, `users` and `meals`. Every meal route first
runs the `checkSessionIdExists` pre-handler. It resolves the `sessionId`
cookie to a user or stops the request with one of two distinct 401 replies.
Then the route runs: create a meal, list the session user's meals (most
recent first), fetch one meal by id, or update one meal by id.

This model states what each of those steps decides and what it does to the
tables. It proves:

- the guard's three-way decision;
- the filter and ordering of the list;
- the point lookups;
- "nothing else changes" for inserts and updates;
- the order of the checks: guard, then route parameters, then body, then
  table.

Modules, one per component:

- `Wrappers` (`wrappers.dfy`): `Option` and `Result`.
- `Schema` (`schema.dfy`): stands in for the zod schemas. It has a small JSON
  value type, the meal body parser, and the UUID check on `mealId`.
- `Tables` (`tables.dfy`): the `User` and `Meal` rows and the relational
  operations the handlers use (`where(...).first()`, `where`, `orderBy`,
  `insert`, `update`) as functions over sequences. It also has the lemmas
  relating them, and the `Database` class. That class holds both tables and
  changes `meals` in place through `Insert` and `UpdateById`.
- `Http` (`http.dfy`): the replies with their status codes and error bodies,
  and the `Request` class. Its `user` field is what the guard attaches.
- `Session` (`session.dfy`): the guard. `ResolveSession` is the decision as a
  function. `CheckSessionIdExists` is the pre-handler as a method that sets
  `request.user` or replies.
- `MealsRoutes` (`meals.dfy`): the four handlers. Each is a method proved
  against the functions above. `CreateScenario` and `CreateThenListScenario` replay "POST a lunch,
  then GET /" through their contracts.

Foreign inputs become parameters:

- `randomUUID()` is the handler argument `newId`. It is required to be a UUID
  that is not yet a meal id; a random v4 UUID collision is treated as
  impossible.
- `new Date(val).getTime()` is the argument `toMillis: string -> int`.

Three behaviours of the code worth noting:

- An unparsable route parameter or body is not caught by any handler. zod
  throws, and Fastify's default error handler answers with status 500. The
  model uses `ValidationFailure(Params)` or `ValidationFailure(Body)`, status
  500. It does not send a crafted 400.
- `PUT /:mealId`, like `GET /:mealId`, makes no ownership check. Any
  authenticated session can update any meal whose id it knows, and the row
  keeps its original `user_id`.
- The guard treats an empty cookie like a missing one (`!sessionId`).

## Model

| member | source | states |
|---|---|---|
| `Schema.ParseMealBody` | src/routes/meals.ts:11-18 | the body parses exactly when it is an object whose `name`, `description`, `date` are JSON strings and `isOnDiet` a JSON boolean, and the typed body holds exactly those values |
| `Schema.ParseEncodeRoundTrip` | src/routes/meals.ts:66-73 | any body a client encodes parses back to itself |
| `Schema.ParseIgnoresExtraKeys` | src/routes/meals.ts:11-16 | keys other than the four schema fields do not change what the schema yields |
| `Schema.IsUuid` | src/routes/meals.ts:49 | the `mealId` check: 36 characters, hyphens at positions 8, 13, 18 and 23, hexadecimal digits of either case elsewhere; `UuidFromGroups` and `UuidToGroups` relate it to the grouped form |
| `Schema.UuidFromGroups` | src/routes/meals.ts:49 | five hexadecimal groups of 8, 4, 4, 4 and 12 digits joined by hyphens always pass the UUID check |
| `Schema.UuidToGroups` | src/routes/meals.ts:49 | every string that passes the UUID check is exactly such a join of five hexadecimal groups of those widths |
| `Tables.FirstBySession` | src/middlewares/check-session-id-exists.ts:15 | the lookup is absent exactly when no user has that session token; otherwise a user holding it (the first in the sequence; see the line on `first()` under Left out) |
| `Tables.FindById` | src/routes/meals.ts:53 | the lookup is absent exactly when the id is not stored; otherwise a stored row with that id (the first in the sequence; see the line on `first()` under Left out) |
| `Tables.FirstBySessionUnique` | src/middlewares/check-session-id-exists.ts:15 | with unique session tokens, the lookup by a stored user's token yields that user |
| `Tables.FindByIdUnique` | src/routes/meals.ts:75 | with unique ids, looking up a stored row's id yields that row |
| `Tables.WhereOwner` | src/routes/meals.ts:37 | the `where({ user_id })` filter: owned rows in table order; what it keeps is stated by `WhereOwnerCounts` |
| `Tables.WhereOwnerCounts` | src/routes/meals.ts:37 | the filter keeps every row of the owner exactly as often as it is stored, and no row of another owner |
| `Tables.InsertByDate` | src/routes/meals.ts:38 | inserting into a date-descending sequence keeps it date-descending and adds exactly that row |
| `Tables.OrderByDateDesc` | src/routes/meals.ts:38 | the ordering is date non-increasing and a permutation of its input |
| `Tables.ListForOwner` | src/routes/meals.ts:36-38 | the list is most recent first; it holds every owned row with its stored multiplicity and no other row |
| `Tables.NewMeal` | src/routes/meals.ts:20-27 | the row `POST /` inserts: the given id, the body's name, description and isOnDiet, the timestamp of its date, the session user as owner; `CreateThenGet` proves these are what a lookup returns |
| `Tables.UpdateWhereId` | src/routes/meals.ts:81-86 | the update keeps the table's length and every row's `id` and `user_id`; rows with another id stay as they were; rows with that id get the body's name, description, is_on_diet and timestamp |
| `Tables.InsertKeepsUniqueIds` | src/routes/meals.ts:20-27 | inserting under a fresh id keeps ids unique and adds exactly that id |
| `Tables.UpdateKeepsIds` | src/routes/meals.ts:81-86 | an update keeps ids unique and the set of ids unchanged |
| `Tables.UpdateMissingIsIdentity` | src/routes/meals.ts:81-86 | an update under an id that is not stored changes nothing |
| `Tables.WhereOwnerAppend` | src/routes/meals.ts:20-27 | appending a row extends the owner's filtered rows by that row exactly when the owner owns it |
| `Tables.CreateThenList` | src/routes/meals.ts:20-38 | after a create, the creator's list has the old rows plus exactly the new row (one more), and every other owner's list is the same as before |
| `Tables.FindByIdAppend` | src/routes/meals.ts:20-27 | a lookup after an append finds the old row if the id was stored, the new row if it has that id, and nothing otherwise |
| `Tables.CreateThenGet` | src/routes/meals.ts:20-27 | the created row is found under its new id with the supplied name, description and is_on_diet, the timestamp of the supplied date, and the session user as owner |
| `Tables.UpdateThenGet` | src/routes/meals.ts:81-86 | after updating a stored id, the lookup finds the old row with its four fields replaced by the body's, same id and owner |
| `Tables.UpdateKeepsListSizes` | src/routes/meals.ts:81-86 | an update moves no row to another owner: every owner's filtered rows keep their count |
| `Tables.Database.Insert` | src/routes/meals.ts:20-27 | the meals table gets exactly the new row appended, users are untouched, ids stay unique |
| `Tables.Database.UpdateById` | src/routes/meals.ts:81-86 | the meals table becomes the update of the old one, users are untouched, ids stay unique and unchanged |
| `Tables.ListOfOneRow` | src/routes/meals.ts:36-38 | a table holding a single row lists exactly that row for its owner |
| `Http.StatusCode` | src/routes/meals.ts:29 | the status each reply sends: 201 create, 200 list and get, 204 update, 404 missing meal (line 78), 401 for both guard failures, 500 for an uncaught schema error |
| `Http.ErrorMessage` | src/routes/meals.ts:78 | the `error` text: `Meal not found` for 404, `Unauthorized Session` and `Unauthorized User` for the guard's replies, none otherwise |
| `Session.ResolveSession` | src/middlewares/check-session-id-exists.ts:9-21 | a missing or empty cookie gives the missing-session failure, exactly; a token no user holds gives the unknown-user failure, exactly; otherwise a stored user holding that token |
| `Session.AuthReply` | src/middlewares/check-session-id-exists.ts:11-19 | both failures reply 401, with error `Unauthorized Session` and `Unauthorized User` respectively |
| `Session.AuthRepliesDistinct` | src/middlewares/check-session-id-exists.ts:12-18 | the two failure replies differ, also in their error message |
| `Session.MissingSessionNeedsNoLookup` | src/middlewares/check-session-id-exists.ts:9-13 | without a token the decision is the same whatever the users table holds |
| `Session.CheckSessionIdExists` | src/middlewares/check-session-id-exists.ts:9-21 | the guard replies exactly when the decision fails, with that failure's 401; otherwise it sends nothing and attaches the one stored user whose `session_id` equals the cookie; no table changes |
| `MealsRoutes.CreateMeal` | src/routes/meals.ts:8-30 | a failed guard replies 401 and leaves the table; a bad body fails validation and leaves the table; otherwise the reply is 201 and exactly the new row (fresh id, supplied fields, derived timestamp, session user as owner) is appended |
| `MealsRoutes.ListMeals` | src/routes/meals.ts:33-44 | a failed guard replies 401; otherwise the reply is 200 with the session user's list |
| `MealsRoutes.GetMeal` | src/routes/meals.ts:46-57 | never 404; a failed guard replies 401; a non-UUID id fails validation; otherwise 200 with the lookup by id, whoever owns the row, absent if none; the table is never written |
| `MealsRoutes.CreateScenario` | src/routes/meals.ts:8-30 | a user with a valid session who posts the lunch body leaves the meals table holding exactly the row built from it, owned by that user |
| `MealsRoutes.UpdateMeal` | src/routes/meals.ts:59-90 | a failed guard replies 401; a non-UUID id fails validation before the body is looked at; a bad body fails validation; an id not stored gives 404; otherwise 204 and the table becomes the update; in every failing case the table is unchanged |

## Left out

- Fastify plumbing: cookie parsing, reply serialisation and route
  registration. Only the decision each handler makes and the reply it picks
  are modelled.
- The server bootstrap (`src/server.ts`): it only listens on a port and logs.
- The debugging `console.log` in `GET /`.
- knex and the SQL driver. Tables are sequences of rows, and each query is
  the relational operation it names. A storage failure, which the source
  does not catch, is not modelled.
- The primary key of `meals` and the uniqueness of `users.session_id` are
  taken as invariants (`Database.Valid`). The migration that declares them
  is not part of this model.
- `Tables.FirstBySession` and `Tables.FindById` model `first()` as the first
  matching row in the sequence. SQL fixes no row order without `ORDER BY`.
  Under the two uniqueness invariants at most one row matches, so the choice
  does not show.
- Column typing by the driver: `is_on_diet` is modelled as a boolean, not as
  the integer SQLite may return.
- `Schema.ParseMealId`: this is the UUID shape zod checks (hexadecimal digits,
  either case, grouped 8-4-4-4-12). Version-specific details of zod's regular
  expression are not modelled.
- `Schema.ParseMealBody`: JSON numbers are integers here. The schema rejects
  numbers in every field, so their range does not matter.
- Date parsing is the uninterpreted parameter `toMillis`. The `NaN` that an
  unparsable date yields is not modelled.
- `randomUUID()` is modelled by its effect only: a fresh UUID.
- Async suspension between the existence check and the update in `PUT`, and
  concurrency across requests in general. Both are left to the database.
- `Tables.OrderByDateDesc`: SQL leaves the order of rows with equal dates
  open. The function picks one allowed order, and its contract promises only
  what SQL promises.
