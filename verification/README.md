# Booking API core, modelled in Dafny

The booking service is a small HTTP API over a document database. It creates, reads, deletes and lists booking records. Most of `index.js` is routing and client plumbing. This project models the pure decisions inside it:

- **Filtered-list query builder** (`GET /bookings`). The query-string parameters become a parameterised query: `SELECT * FROM Bookings b`, plus one `b.<field> = @<field>` predicate and one `{name: '@<field>', value}` parameter for each searchable field that has a truthy value. Predicates follow the declaration order of the searchable fields.
- **Allow-list projection**. Every booking returned to a caller keeps only the keys in the safe-field list.
- **Error classification and callback routing**. A store error whose code, as a string, starts with `4` is a client error. `readDocument` hands it back to the caller. Any other error goes to `handleError`, and the read's callback never runs. The model gives, for every store reply, the callback calls of `createDocument` (`cb(document)`), `readDocument` (`cb(err, value)`) and `deleteDocument` (`cb()`, recorded as both arguments undefined). For `queryDocuments` it gives them as written, including the logging line that throws and the fall-through after an error, and it also gives a corrected version.
- **Get-or-create provisioning**. The database is queried by id; the first match is used, or `{id}` is created when nothing matches. The collection inside it is then provisioned the same way. After that the service's `dbs/…/colls/…` links are set. The store is an in-memory list of resources per container, and each store call may fail.
- **Resource links**. `dbs/<db>`, then `/colls/<coll>`, then `/docs/<booking>`.

Modules: `JsRuntime` (the JavaScript built-ins used: `indexOf`, `join`, `charAt`, `String(n)`, and string truthiness), `Config` (field lists and alias), `QueryBuilder`, `Projection`, `Gateway`, `Links`, `Provisioning`.

In four places the code behaves differently from what a reader might expect, and the model follows the code:

- `deleteDocument` never classifies its errors. Every delete error is only logged.
- A failed `createDocument` is only logged. The callback does not run.
- `createDocument` calls its callback with one argument, `cb(document)`, while the other operations call `cb(err, value)`. The model records a create callback as the document it receives. It does not use the `(err, value)` shape for it.
- The collection is provisioned under the database's store self-link (`db._self`). The links the routes use are then rebuilt from the configured ids (`'dbs/' + databaseId`). The model keys collections by the database's store id and builds the links from the ids, as the code does.

## Model

| member | source | states |
|---|---|---|
| `JsRuntime.IndexOf` | index.js:209 | `indexOf` is -1 exactly when the key is absent; otherwise it is the first position holding the key |
| `QueryBuilder.Selected` | index.js:245-246 | Every selected field is searchable and present with a truthy value; the selection is never longer than the searchable list |
| `QueryBuilder.SelectedComplete` | index.js:245-247 | Every searchable field present with a truthy value is selected; together with `Selected`, a field is selected iff it is searchable and truthy |
| `QueryBuilder.ListQueryShape` | index.js:247-251 | The i-th bound parameter is `{name: '@'+f, value: query[f]}` for the i-th selected field `f`, as many parameters as predicates, and the text is the bare `SELECT` iff nothing is bound |
| `QueryBuilder.BuildQuery` | index.js:242-258 | The reduce-and-push loop builds the reference query. The i-th parameter is `{'@'+f, query[f]}` for the i-th selected field `f`, which is searchable and truthy. There are as many parameters as selected fields. The text is the bare `SELECT` exactly when there are no parameters |
| `QueryBuilder.SelectedDependsOnlyOnRequested` | index.js:246 | Two requests that agree on which searchable fields are truthy select the same fields |
| `QueryBuilder.PredicateOrder` | index.js:245-247 | The selected fields, and so the predicates and parameters, appear in the declaration order of the searchable fields (by `indexOf`), whatever keys the request carries |
| `QueryBuilder.UnfilteredQuery` | index.js:256-257 | The text is exactly `SELECT * FROM Bookings b` with no parameters iff no searchable field carries a truthy value (both directions) |
| `QueryBuilder.QueryTextIgnoresValues` | index.js:247-256 | Injection safety: the query text depends only on which searchable fields are requested, never on request values or unknown keys. It equals the text for the same request with every value masked by one constant |
| `QueryBuilder.UnknownKeyIgnored` | index.js:245-246 | Adding any key outside the searchable list leaves the whole query spec unchanged |
| `QueryBuilder.EmptyValueIgnored` | index.js:246 | A key with an empty value yields the same query spec as the key being absent |
| `QueryBuilder.DeclarationOrderSelection` | index.js:189 | For `{agentId: "a1", userId: "u1"}` the selection is `[userId, agentId]` |
| `QueryBuilder.DeclarationOrderExample` | index.js:242-258 | For `{agentId: "a1", userId: "u1"}` the query is `… WHERE b.userId = @userId AND b.agentId = @agentId`, with parameters `@userId`=u1 then `@agentId`=a1 |
| `QueryBuilder.UnknownFieldExample` | index.js:256 | `{foo: "bar"}` gives the unfiltered query with no parameters |
| `Projection.Project` | index.js:208-210 | The result's keys are the document's keys intersected with the allow-list, and every kept key keeps its value |
| `Projection.ProjectAll` | index.js:269-273 | Listing projects every result document and keeps the list's length and order |
| `Projection.ProjectIdempotent` | index.js:235-237 | Projecting an already projected document changes nothing |
| `Projection.ProjectKeepsSafeDocument` | index.js:235-237 | A document with only allow-listed keys passes through unchanged |
| `Projection.SecretDroppedExample` | index.js:188 | `{id: "1", userId: "u1", secret: "x"}` projects to `{id: "1", userId: "u1"}` |
| `Gateway.Classify` | index.js:56 | A code is a client error iff its string form is non-empty and starts with `'4'` |
| `Gateway.ClientErrorBand` | index.js:43 | For a numeric code with `10^k <= n < 10^(k+1)`, it is a client error iff `4*10^k <= n < 5*10^k` (both directions) |
| `Gateway.HttpStatusClass` | index.js:56 | For three-digit codes the leading-`4` rule is exactly the 400–499 range |
| `Gateway.NonPositiveCodesAreServerErrors` | index.js:56 | Negative codes, zero and an absent code are server errors |
| `Gateway.ReadDocument` | index.js:53-66 | Exactly one callback on success or on a client error, none on a server error. The callback carries the error alone or the document alone, taken from the reply |
| `Gateway.QueryDocumentsAsWritten` | index.js:37-51 | As written, a success calls back once with the results. An error throws with no callback when `JSON.parse(err)` at line 42 fails, or when a server error's `handleError` parse fails. Otherwise the last callback carries no error |
| `Gateway.QueryDocuments` | index.js:37-51 | With the fall-through removed: at most one callback, carrying either the error or the results |
| `Gateway.DeleteDocument` | index.js:26-35 | One error-free callback exactly on success; every error is dropped after logging |
| `Gateway.CreateDocument` | index.js:15-24 | One one-argument callback `cb(document)` with the created document exactly on success; an error produces no callback |
| `Gateway.QueryRoutesLikeRead` | index.js:43-47 | With the fall-through removed, a query routes every reply exactly as a read does |
| `Gateway.QueryDropsOnlyFallThrough` | index.js:42-49 | When the logging parses complete, the as-written query differs from the corrected one only by the trailing `cb(undefined, undefined)` after an error |
| `Gateway.QueryAsWrittenLosesClientError` | index.js:42-44 | As written, a client error whose string form is not JSON throws at line 42 with no callback, while a read, like the corrected query, hands the same error back |
| `Gateway.QueryAsWrittenCallsBackTwice` | index.js:42-49 | As written, a 404 that gets past line 42 reaches the callback twice: first with the error, then as an apparent success with no results |
| `Gateway.QueryAsWrittenCallsBackAfterServerError` | index.js:42-49 | As written, a 500 that gets past both parses is handled, and the callback still runs as an apparent success with no results |
| `Gateway.CreateDeliversWhatReadDelivers` | index.js:15-24 | On success, create delivers as its only argument the document that a read delivers as its second argument, after an undefined error. On an error, create never calls back, while a read calls back iff the error is a client error |
| `Gateway.DeleteDropsClientErrors` | index.js:27-30 | A client-class error that a read hands back is dropped by delete |
| `Links.DbLink` | index.js:168 | The database link starts with `dbs/` and ends with the database id |
| `Links.CollLink` | index.js:170 | The collection link starts with the database link and `/colls/`, and ends with the collection id |
| `Links.DocLink` | index.js:217 | A booking link starts with the collection link and `/docs/`, and ends with the booking id |
| `Links.DocLinkSegments` | index.js:227 | For slash-free ids, splitting a booking link on `/` gives back `dbs`, the database id, `colls`, the collection id, `docs`, the booking id |
| `Links.DocLinkInjective` | index.js:227 | For slash-free ids, different id triples give different booking links |
| `Provisioning.QueryById` | index.js:116-126 | Every result is a resource of the container carrying the queried id |
| `Provisioning.QueryByIdFirstMatch` | index.js:126-145 | The results are empty iff the id is absent, and `results[0]` is the resource at the id's first position in the store |
| `Provisioning.GetOrCreate` | index.js:111-148 | A failed query changes nothing and produces no handle. An existing id returns its first match and leaves the store unchanged. A missing id makes the store gain exactly one record `{id}`, which is returned, unless the create fails. The old store is always a prefix of the new one |
| `Provisioning.GetOrCreateIdempotent` | index.js:131-145 | After a successful get-or-create, a second one with the same id returns the same resource and creates nothing, whatever the create call would do |
| `Provisioning.GetOrCreateKeepsStoreValid` | index.js:92-106 | Get-or-create never introduces a duplicate id and keeps store ids equal to positions |
| `Provisioning.InitDb` | index.js:7-13 | When start-up completes, the links are `dbs/<db>` and `dbs/<db>/colls/<coll>`, and the database holds the collection. It completes iff both queries succeed and each missing resource is created. A failed database query changes nothing and sets no link; when no link is set, no collection changes. The databases gain only the created `{id}`. The configured database's collections gain only the created collection, and no other database's collections change |
| `Provisioning.ProvisionCollection` | index.js:68-109 | The collection step leaves the databases alone, and every database's collections except `db`'s. `db`'s gain only the created collection. It sets the links iff the query succeeds and the collection exists or is created. When it sets no link, nothing changes |
| `Provisioning.InitDbKeepsAccountValid` | index.js:7-13 | Start-up keeps every container free of duplicate ids. Collections hang only off existing databases |
| `Provisioning.ProvisionCollectionKeepsAccountValid` | index.js:92-106 | The collection step keeps the account valid |
| `Provisioning.ProvisionCollectionIdempotent` | index.js:92-106 | Repeating a completed collection step with a working collection query changes nothing |
| `Provisioning.InitDbIdempotent` | index.js:166-173 | Running start-up again after it completed, with working database and collection queries, sets the same links and leaves the account unchanged |

## Findings

| source | as written | input that shows it | evidently intended | confidence | as-written member | corrected member |
|---|---|---|---|---|---|---|
| index.js:42 | `JSON.parse(err)` parses the error's string form. For an error object that is `[object Object]` or `Error: …`, neither of which is JSON, so the line throws before the client/server test | A query reply whose error is an object with code 404: no callback runs, and the exception escapes | Log the message without throwing, then hand a client error back as `readDocument` does | high; not executed | `Gateway.QueryDocumentsAsWritten` (`Gateway.QueryAsWrittenLosesClientError`) | `Gateway.QueryDocuments` (`Gateway.QueryRoutesLikeRead`) |
| index.js:43-49 | After `cb(err, undefined)` on a client error, or `handleError(err)` on a server error, control falls through to `cb(undefined, results)` with `results` undefined | A 404 reply that gets past line 42 calls the callback twice. A 500 that gets past both parses calls it once, as a success without results | One outcome: the error is handed back on a client error, and no callback runs on a server error, as in `readDocument` | medium (reachable only once line 42 completes); not executed | `Gateway.QueryDocumentsAsWritten` (`Gateway.QueryAsWrittenCallsBackTwice`, `Gateway.QueryAsWrittenCallsBackAfterServerError`) | `Gateway.QueryDocuments` (`Gateway.QueryRoutesLikeRead`) |

## Left out

- HTTP glue is not modelled: Express routing, `res.status`/`res.json`/`res.send` and body parsing (index.js:176-181, 191-280).
- As a consequence, the list route's double response is not modelled either: it sends `{}` for an empty result and then sends the document list.
- Request validation is not modelled (`express-validator`, including the ISO-8601 date check). It is a foreign library.
- Environment loading (`dotenv`, `process.env`) and `DocumentClient` construction are configuration and I/O. The store is replaced by an in-memory account, and each store call's failure is a parameter.
- Logging output (`console.log`) is not modelled. JSON parsing is not modelled either. Whether a `JSON.parse` call completes is a parameter only where it decides a callback: `parsesErr` and `parsesBody` of `Gateway.QueryDocumentsAsWritten`.
- Gateway.ReadDocument and Gateway.DeleteDocument do not model the exception that `JSON.parse(error.body)` in `handleError` (index.js:150-153) may throw. `handleError` is the last statement of the branch that calls it, so the exception changes no callback.
- Provisioning.GetOrCreate does not model that exception either. It ends the chain in the same way a handled error does: no callback, no store change.
- The store's own semantics are not modelled: create-then-read round trips, and reads failing after a delete. Store replies are inputs to the gateway model.
- Callback sequencing is not modelled, nor the race between start-up and the first requests. Both are asynchrony, not logic.
- The start-up callback's `if (!err)` check is not modelled, because `initDb` calls its callback without an argument. The links are therefore set whenever the chain reaches it.
- Query-string values are strings, so array- and object-valued parameters are left out. A string is truthy exactly when it is non-empty.
- Error codes are integers, strings or absent. Fractional numeric codes are left out.
- Dafny maps have no key order, so the key order of the request cannot affect the query.
- Query results come back in store order. `results[0]` is modelled as the first match in that order.
- A created resource gets a store id equal to its position in its container. This stands in for the store-assigned `_rid`/`_self`.
- `filter-values` is modelled directly as a map restriction.
- The projection's allow-list membership goes through `indexOf != -1`, as in the code.
