# In-memory user store of the Squirrel server

This project models the user store behind the Express server in
`src/server.ts`. The store is a module-level array `users` of plain
objects. Four handlers read it or change it in place:

- `GET /api/users` answers with the whole array.
- `POST /api/save-user` checks that the body has a truthy `name` and `email`.
  It rejects an email that is already stored. Otherwise it sets the body's
  `id` to `users.length + 1` and pushes the shallow copy `{ id, ...userData }`.
- `PUT /api/update-user/:id` finds the first record whose id is
  `parseInt(req.body.id)` and shallow-merges the body over it.
- `DELETE /api/delete-user/:id` finds the first record whose id is
  `parseInt(req.params.id)` and splices it out.

The project has four modules:

- `JsValues` (`js_values.dfy`) covers the JavaScript semantics the handlers
  rely on. A JSON body is a `map<string, Value>`. An absent key reads as
  `undefined`. The module also defines truthiness, strict equality `===`
  and the object spread `{...a, ...b}`.
- `Handlers` (`handlers.dfy`) gives each handler as a function. The function
  maps the current array and the request to the new array and the response
  (status and JSON payload). Its contract states the status codes, the
  error paths and the new contents.
- `Server` (`server.dfy`) holds the class `UserStore`. Its field `users` is a
  sequence that the handler methods reassign step by step, as the source
  does with `push`, an indexed assignment and `splice`. Each method is
  proved to produce exactly the state and response that `Handlers`
  specifies.
- `History` (`history.dfy`) covers sequences of requests. It shows when emails
  stay unique and when ids stay distinct. It also gives two concrete
  histories where they do not.

The parsed id is an `Option<int>` input. `None` stands for `NaN`, which is
`===` to nothing, so such a request ends in 404.

Facts about the code that the model keeps:

- Update reads its id from `req.body.id`; the `:id` path parameter is ignored (src/server.ts:50).
- Update spreads the body over the stored record, so fields the body omits keep their old values (src/server.ts:54).
- The body's own `id` is part of that spread, so an update can change a record's id, even to a string.
- Update and delete answer 404 "User not found" when no record has the id (src/server.ts:56-58, 68-70).
- The id `users.length + 1` is reused after a delete (src/server.ts:41; see `History.DeleteThenSaveReusesId`).
- Update does not check emails, so it can give two records the same email (src/server.ts:54; see `History.UpdateCanDuplicateEmail`).

## Model

| member | source | states |
|---|---|---|
| `JsValues.Spread` | src/server.ts:54 | every key of either object is present; keys of the later object take its values; all other keys keep the earlier object's values |
| `Handlers.FirstMatch` | src/server.ts:36 | the result is the first index whose field is `===` to the target; if it is None, no record has such a field |
| `Handlers.FindById` | src/server.ts:50-51 | the result is the first index whose id is `===` to the parsed id; None means no record matches, and always when the id is NaN |
| `Handlers.NewUser` | src/server.ts:41-43 | the stored record has exactly the body's keys plus `id`; `id` is the new id, whatever id the body carried; every other key keeps the body's value |
| `Handlers.List` | src/server.ts:16-18 | the store is left as it is, and the answer is 200 with the whole store |
| `Handlers.Save` | src/server.ts:27-46 | 201 exactly when `name` and `email` are truthy and no stored email is `===` to the body's. A falsy field gives 400 "Name and email are required"; a taken email gives 400 "User already exists"; both leave `users` unchanged. On 201 exactly one record is appended and earlier records are untouched. That record has the body's keys plus `id`, with `id = old length + 1`, the body's values for every other key, and it is the response. Unique emails stay unique |
| `Handlers.Update` | src/server.ts:49-59 | 404 "User not found" with `users` unchanged exactly when no record has the parsed id (NaN included). Otherwise only the first matching record changes: body fields overwrite it, absent fields keep their old values, other records and the length are unchanged, and the merged record is answered with 200 |
| `Handlers.Delete` | src/server.ts:62-71 | 404 with `users` unchanged exactly when no record has the id. Otherwise the first matching record is removed and returned with 200; the others keep their order, the length drops by one, and the multiset of records loses exactly that one |
| `Handlers.DeleteKeepsEmailsUnique` | src/server.ts:63-66 | removing a record never makes two remaining emails `===` |
| `Server.UserStore.constructor` | src/server.ts:24 | the store starts empty |
| `Server.UserStore.ListUsers` | src/server.ts:16-18 | answers 200 with the array as it is, and modifies nothing; the answer and the store are `Handlers.List`, the list step the request histories use |
| `Server.UserStore.SaveUser` | src/server.ts:27-46 | the check-find-push steps leave `users` and the response exactly as `Handlers.Save` specifies |
| `Server.UserStore.UpdateUser` | src/server.ts:49-59 | the findIndex and indexed-assignment steps leave `users` and the response exactly as `Handlers.Update` specifies |
| `Server.UserStore.DeleteUser` | src/server.ts:62-71 | the findIndex and splice steps leave `users` and the response exactly as `Handlers.Delete` specifies |
| `History.EmailsStayUnique` | src/server.ts:36-44 | starting from unique emails, any sequence of saves, deletes, lists and updates whose body has no `email` keeps the emails unique |
| `History.UpdateCanDuplicateEmail` | src/server.ts:54 | an update whose body carries another record's email succeeds and leaves two records with `===` emails |
| `History.IdsDistinctWithoutDeletes` | src/server.ts:41-44 | without deletes, every numeric id equals its position plus one, so no two records share a numeric id. Every update's id must be parsed from its body, and a numeric body id must be a safe integer (below 2^53 in magnitude) |
| `History.DeleteThenSaveReusesId` | src/server.ts:41 | saving two users, deleting id 1 and saving a third leaves two records with id 2, so `users.length + 1` is not a unique id |
| `History.PositionalIdsLeaveNextIdFree` | src/server.ts:41 | while ids are positional, no record holds the id the next save gives out |
| `History.SaveThenDeleteRestores` | src/server.ts:41-67 | deleting the id a successful save just gave out restores the earlier array and returns the saved record, provided no earlier record held that id |
| `History.UpdateIsIdempotent` | src/server.ts:54 | repeating an update whose body carries the numeric id it is looked up by changes nothing more. The lemma also covers a body without `id`, but the handler parses that id to NaN, so both updates answer 404 |

## Left out

- Express setup is not modelled: helmet, cors, the body-size limit, JSON body parsing, morgan logging, the root route `/` and `app.listen` on `PORT` (src/server.ts:2-13, 21, 74-82). They are framework and I/O configuration.
- The `console.log(users)` in the update handler is left out. It is a side effect only.
- `parseInt` string parsing is not modelled. The update and delete methods take the parsed id as an `Option<int>`, with None for `NaN`. For an absent, null or boolean body id, and for a numeric one that is a safe integer, `History.ParsedFromBody` states what `parseInt` gives. For a string or object id, and for a number of magnitude 2^53 or more, it leaves the result open.
- JSON numbers are modelled as exact unbounded integers. Fractions, `NaN` and infinities in request bodies are not represented. JavaScript rounds integers beyond 2^53, so two emails such as `9007199254740992` and `9007199254740993` are `===` in the program (400 "User already exists") but distinct in the model. `parseInt` reads numbers of 10^21 and above from their exponent form (`parseInt(1e21)` is 1), which the model does not compute.
- Nested objects and arrays in a body are opaque values. The handlers copy them one level deep and never look inside. Two distinct objects are never `===`.
- The update handler's body is always an object, as the JSON body parser delivers it. A missing body, which would throw before the lookup, is not modelled.
- Concurrency is not modelled. The server handles one request at a time on a single thread, and the model runs requests in sequence.
- The MySQL connection in src/database.ts is not part of this model. It is network I/O with static configuration and no logic.
- The record type in src/user.ts has no behaviour. Its nested fields are opaque values of a record.
- JsValues.Spread: records are unordered maps, so the property order of every JSON response is not modelled: `{ id, ...userData }` puts `id` first (src/server.ts:43), and `{ ...users[index], ...req.body }` keeps the old record's key order and appends new body keys (src/server.ts:54). No handler's logic depends on this order.
