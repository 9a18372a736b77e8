# users CRUD service — a Dafny model

This project models the core of a small HTTP service in `server.js`. The
service does create, read, update and delete on one SQLite table, `users`.
Each row of that table has an integer primary key `id`, a `first_name` and a
`last_name`. A UNIQUE constraint says that no two rows hold the same
(first_name, last_name) pair. The model covers two pieces of logic:

- **The lookup query builder** inside `GET /get` (module `LookupQuery`). It
  takes the two optional criteria `firstName` and `lastName`, each tested for
  JavaScript truthiness. From them it builds a SQL text and a positional
  parameter list. The model proves these facts:
  - the text has as many `?` placeholders as there are parameters;
  - each `... = ?` term is in the text exactly when its criterion is truthy;
  - ` AND` is in the text exactly when both criteria are truthy;
  - the parameters are pushed in a fixed order, first name first;
  - with no criterion the text is the bare `SELECT * FROM users WHERE`.
- **The handlers over the table.** A small model of the SQL engine
  (`SelectEngine`) runs the built SELECT. Every route is written twice:
  - as a pure transition from (table, request) to (table', status, body), in
    module `Handlers`;
  - as a method of the `UserStore` class (module `Store`), which holds the
    table as a `map` field and changes it in place. Each method is proved
    equal to its transition and to keep the UNIQUE invariant.

  Module `Scenarios` relates several requests to each other, for example:
  - add then look up;
  - add then delete;
  - add the same name pair twice;
  - delete twice;
  - update then look up;
  - a session on a fresh table.

Request fields are `Option<string>`. A field is truthy when it is present and
not the empty string. The path `:id` is `Option<int>`. `None` stands for the
empty, falsy id string; a present id is compared with the table's keys as an
equal key. The `fault` argument of every handler stands for any failure the
database reports other than the UNIQUE violation. A failing statement changes
nothing.

A lookup with no criteria does not return every row: the code sends the
dangling text `SELECT * FROM users WHERE`, which the engine rejects as a
syntax error. So that request ends with status 500 and
`{error: 'Internal Server Error'}` (server.js:36-38, 46-50). This is proved
in `SelectEngine.NoCriteriaIsSyntaxError` and `Handlers.LookupResults`.

Files:
- `wrappers.dfy`: `Option`, `Result`, `Truthy`.
- `schema.dfy`: rows, the table, the uniqueness predicate, fresh rowids.
- `lookup_query.dfy`: the query builder.
- `select_engine.dfy`: the SELECT as the engine runs it.
- `handlers.dfy`: the four handlers as transitions.
- `user_store.dfy`: the `UserStore` class.
- `scenarios.dfy`: lemmas over sequences of requests.

## Model

| member | source | states |
|---|---|---|
| `LookupQuery.BuildQuery` | server.js:36-43 | one parameter per truthy criterion; the first name's value comes first and the last name's value last; no parameter is empty; the text starts with `SELECT * FROM users WHERE` |
| `LookupQuery.PlaceholdersMatchParams` | server.js:36-43 | the text has exactly as many `?` placeholders as `params` has elements |
| `LookupQuery.FirstNameTermIffTruthy` | server.js:37 | ` first_name = ?` is in the text iff `firstName` is truthy, so an empty string counts as absent |
| `LookupQuery.LastNameTermIffTruthy` | server.js:38 | ` last_name = ?` is in the text iff `lastName` is truthy |
| `LookupQuery.AndIffBoth` | server.js:38 | ` AND` is in the text iff both criteria are truthy |
| `LookupQuery.BothCriteriaOrder` | server.js:41-43 | with both criteria truthy, `params` is `[firstName, lastName]` in that order |
| `LookupQuery.NoCriteriaText` | server.js:36-38 | with neither criterion the query is exactly `SELECT * FROM users WHERE` with no parameters |
| `SelectEngine.Execute` | server.js:46 | `db.all` returns only rows of the table, unchanged, and reports a syntax error for text it cannot parse |
| `SelectEngine.BuiltQueryFindsMatches` | server.js:36-46 | with at least one truthy criterion the built statement runs and returns exactly the rows matching the conjunction of the truthy criteria |
| `SelectEngine.NoCriteriaIsSyntaxError` | server.js:36-46 | with no truthy criterion the built statement is a syntax error, not a select-all |
| `Handlers.Lookup` | server.js:31-55 | every lookup answers 200 or 500 with `{error: 'Internal Server Error'}`; it returns no table because it changes none |
| `Handlers.LookupResults` | server.js:46-54 | a lookup answers 200 iff the engine does not fail and some criterion is truthy, and then its results are exactly the matching rows |
| `Handlers.Add` | server.js:59-80 | 400 iff a name is falsy; otherwise 500 iff a fault or the pair already exists; the table changes only on 200, where exactly one row is added under the fresh id and the body echoes that id and the names; the UNIQUE constraint is preserved |
| `Handlers.Update` | server.js:83-108 | 400 iff the id or a name is falsy; then 404 iff no fault and the id is absent; 500 iff a fault or another row holds the new pair; on 200 only that row's names are replaced and the body echoes id and names; nothing changes otherwise; uniqueness is preserved |
| `Handlers.Delete` | server.js:112-136 | 400 iff the id is falsy; then 500 iff a fault; 404 iff the id is absent; on 200 exactly that row is removed and the body is `{message: 'User deleted successfully', id}`; nothing changes otherwise; uniqueness is preserved |
| `Schema.FreshIdExists` | server.js:18 | every table leaves a positive rowid unused for an insert |
| `Store.UserStore.constructor` | server.js:16-23 | the freshly created table is empty and satisfies the UNIQUE constraint |
| `Store.UserStore.Get` | server.js:31-55 | the `/get` method answers exactly as `Handlers.Lookup` and changes no field |
| `Store.UserStore.Add` | server.js:59-80 | the `/add` method keeps the UNIQUE invariant and leaves the table and response that `Handlers.Add` gives for some id not in the old table |
| `Store.UserStore.Update` | server.js:83-108 | the `/update/:id` method keeps the UNIQUE invariant and leaves the table and response that `Handlers.Update` gives |
| `Store.UserStore.Delete` | server.js:112-136 | the `/delete/:id` method keeps the UNIQUE invariant and leaves the table and response that `Handlers.Delete` gives |
| `Scenarios.LookupByBothNames` | server.js:21 | under the UNIQUE constraint a lookup on a row's two names returns that row alone |
| `Scenarios.AddThenLookup` | server.js:59-80 | a row just added is the only result of a lookup on its two names |
| `Scenarios.AddThenDelete` | server.js:112-136 | deleting by the id an add returned restores the table as it was before the add |
| `Scenarios.AddTwice` | server.js:70-74 | adding an existing name pair again answers 500 and leaves the table unchanged |
| `Scenarios.DeleteTwice` | server.js:130-131 | a second delete of the same id answers 404 and changes nothing |
| `Scenarios.DeletedRowNotFound` | server.js:122 | after a delete no lookup returns the deleted id |
| `Scenarios.UpdateThenLookup` | server.js:94-106 | after an update, a lookup on the new names returns that row alone |
| `Scenarios.UpdateToSameNames` | server.js:94-106 | updating a row to its own names answers 200 and leaves the table unchanged |
| `Scenarios.AddCount` | server.js:70 | a successful add adds exactly one row |
| `Scenarios.DeleteCount` | server.js:122 | a successful delete removes exactly one row |
| `Scenarios.UpdateCount` | server.js:94 | an update never changes the number of rows |
| `Scenarios.SessionExample` | server.js:59-136 | a session on an empty table, with rowid 1 as the engine's choice: adding Ada Lovelace answers 200 with id 1, a lookup by first name finds her, renaming to Byron and deleting both answer 200, and a second delete answers 404 |

## Left out

- Express setup, routing, JSON body parsing and `app.listen` (server.js:1-5, 28, 140-142): these are HTTP plumbing.
- Opening the database file, its open-error branch and `PRAGMA foreign_keys` (server.js:8-14): these are I/O and foreign calls. The table starts empty, and `CREATE TABLE IF NOT EXISTS` is reduced to that empty table.
- The SQL engine in general. `SelectEngine` recognises only the statement shape the builder produces (the head, then ` AND`-separated `first_name = ?` / `last_name = ?` terms) and reports a syntax error for any other text. Engine failures of every other kind are the `fault` argument.
- SQLite type affinity between the path's id string and the integer key (`'1'` matching `1`): ids are compared as equal integer keys. A non-numeric id is any key absent from the table.
- The form of the id that update and delete echo (server.js:105, 133): the code sends back the raw path string (`/update/01` answers `id: "01"`), while `Handlers.Update` and `Handlers.Delete` echo the integer key; add echoes the number `this.lastID` (server.js:77) in both code and model.
- How SQLite chooses `lastID`. Any positive key not in the table may be chosen.
- Store.UserStore.Add: states its outcome for some fresh id rather than naming the id, because the rowid choice is left to the engine.
- LookupQuery.BuildQuery: query-string values that are arrays or other non-string JSON are not modelled; criteria are optional strings.
- Row order of `db.all`: results are a set of rows, because the engine's scan order is not part of the model.
- NULL names: the schema allows them, but the handlers never store one, so names are plain strings.
- The asynchronous callbacks and interleaving of concurrent requests: each request is one atomic step.
- `console.error` and `console.log` logging.
