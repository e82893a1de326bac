# FastCargo order-dispatch core, modelled in Dafny

This project models the core of a small order-dispatch backend. Drivers register and
authorize to get access tokens. An access gate sits in front of every order handler and
checks the token. Authenticated drivers then create orders, list the available ones, claim
("take") one, list the ones they hold, and remove one of theirs.

Modules, one per source file or concern:

- `Models` (`models.dfy`) holds the `users` and `orders` records with their column defaults
  (role `"driver"`, `driver_id` NULL). It also holds the table-wide facts the declarations
  imply: both primary keys, the `driver_id -> users.id` foreign key, and the `User.orders`
  relationship.
- `Queries` (`queries.dfy`) gives the two query shapes the handlers use: `.filter(p).first()`
  is `First` and `.filter(p).all()` is `Filter`. A table is a sequence scanned in insertion
  order (see "## Left out"); what the handlers promise is stated without relying on that order.
- `Tokens` (`tokens.dfy`) holds the access-token claims (`user_login`, `user_id`, `exp`),
  `create_access_token`, and the two lifetimes (5 hours and 30 minutes). Decoding a token is
  abstract: it yields `Ok(claims)`, `Expired` or `Malformed`.
- `AuthGate` (`auth_gate.dfy`) is `AuthMiddleware.dispatch` written as a pure decision function.
- `UserRoutes` (`user_routes.dfy`) is the credential store. It is a class holding the `users`
  table and the injected hasher and salt, with `registration` and `authorization` as methods.
- `OrderRoutes` (`order_routes.dfy`) is the order registry. It is a class holding the `orders`
  table, with the five handlers as methods. The two list handlers share one serialisation loop.

Both classes keep an invariant `Valid()`: ids are unique and below the next id to assign.
`UserStore.Valid()` also requires unique logins. `OrderTable.Valid()` also requires unique
(title, description) pairs. Every mutating method preserves `Valid()`.

Handlers that decode the token themselves can fail in two ways the source does not handle:

- If `if token:` is false and there is no `else`, the handler returns nothing (`NoReply`).
- If `jwt.decode` fails outside any `try`, the exception escapes the handler (`Raised`).

The gate can fail the same way. A body without an `access_token` key, or one that is not
JSON, makes the gate raise (`Raises`).

The model follows the code, including where the code departs from the evident design:

- The gate raises on a body without a token key. It does not reject such a request cleanly.
- The claim is a read followed by a write. It is not an atomic conditional update.
- "Not found" is 400 in `TakeOrder` and 404 in `remove_note`.
- The remove handler checks ownership through a column that does not exist (see Findings).

## Model

| member | source | states |
|---|---|---|
| `Queries.First` | routes/order.py:104 | the index of the first row satisfying the filter; it is None exactly when no row does |
| `Queries.Filter` | routes/order.py:130-132 | the rows returned are table rows satisfying the filter, every satisfying row is returned, and there are at most as many as in the table |
| `Queries.FilterCounts` | routes/order.py:168-170 | each row satisfying the filter is returned exactly as often as the table holds it, and no other row is returned |
| `Models.NewUser` | database/models.py:10-17 | a new user row has role "driver", created_at = now, and the given id, login and password |
| `Models.NewOrder` | database/models.py:21-35 | a new order row has driver_id NULL (it is available), created_at = now, and every other column from the request |
| `Models.OrdersOf` | database/models.py:18 | a user's `orders` are exactly the orders whose driver_id is that user's id |
| `Models.ClaimedOrderHasOneDriver` | database/models.py:34-36 | under the foreign key and the users' primary key, every claimed order is in the `orders` of exactly one user |
| `Tokens.CreateAccessToken` | routes/user.py:132-141 | the claims always carry the subject's login and id, with exp exactly `expires_delta` after now |
| `AuthGate.Dispatch` | middlewares/auth.py:18-46 | allow-listed paths pass whatever the body. Otherwise: a missing token key raises; a falsy token gives 403 "no token"; an expired token gives 403; any other decode failure gives 400; a token that decodes forwards the request. Each outcome is an if-and-only-if |
| `AuthGate.ForwardedRequestHasValidToken` | middlewares/auth.py:26-41 | a request forwarded off the allow-list carries a non-empty token that decodes |
| `UserRoutes.UserStore.Registration` | routes/user.py:56-102 | login length outside [5,50] gives 400; with a good login, a password length outside [5,25] gives 400; then a taken login gives 409. Every refusal leaves the store unchanged. Success happens iff all three checks pass: it appends exactly one user with the stored password hash(password, SALT) and returns 201 with claims (new id, login, now + 5 h). Logins stay unique |
| `UserRoutes.UserStore.Authorization` | routes/user.py:105-129 | succeeds iff some user has this login and stored password hash(password, SALT). It then issues that user's claims with exp = now + 30 min. Every failure is the same 401 reply, so an unknown login and a wrong password cannot be told apart. It does not change the store |
| `UserRoutes.RegisteredUserIsFirstMatch` | routes/user.py:111-118 | a user appended under a fresh login is the first (login, hash) match of the new table |
| `UserRoutes.RegistrationKeepsDriversRegistered` | database/models.py:34 | adding a user keeps every set driver_id pointing at an existing user |
| `UserRoutes.RegisterThenAuthorize` | routes/user.py:74-118 | after a successful registration of (login, password), authorization with the same pair succeeds for the registered user's id, and registering the login again gives 409 |
| `OrderRoutes.Serialize` | routes/order.py:134-150 | the list loop emits one view per row of the query result, in the order of that result, each view holding every column except driver_id and created_at |
| `OrderRoutes.ViewsOfFilter` | routes/order.py:130-150 | a view is listed iff some table row satisfying the filter has that view |
| `OrderRoutes.OrderTable.CreateOrder` | routes/order.py:63-92 | 409 iff some order has the same (title, description), and then the table is unchanged. Otherwise 201 and exactly one new unclaimed order with the request's fields is appended, leaving existing orders untouched. Unique pairs and unique ids are preserved |
| `OrderRoutes.OrderTable.TakeOrder` | routes/order.py:95-122 | an empty token gives no reply and an undecodable token raises, both with no change. An unknown id gives 400 and a claimed order gives 409, both with no change. Otherwise 202, and only that order's driver_id becomes the token's user_id. Rows that were already claimed never change |
| `OrderRoutes.OrderTable.AvaliableListOrders` | routes/order.py:125-155 | the listing is exactly the views of the orders with NULL driver_id, and count equals its length |
| `OrderRoutes.OrderTable.MyListOrders` | routes/order.py:157-192 | with a decodable token, the listing is exactly the views of the orders whose driver_id is the token's user_id, and count equals its length. An empty token gives no reply and an undecodable token raises |
| `OrderRoutes.OrderTable.RemoveNote` | routes/order.py:195-240 | an empty token gives 401 and an expired token gives 401, both before any lookup; another decode failure raises; a missing or zero note_id gives 404. If no order matches both id and owner, 404 with the table unchanged. Otherwise 202 and exactly that row is deleted |
| `OrderRoutes.DeleteKeepsInvariants` | routes/order.py:219-221 | deleting a row keeps ids unique, (title, description) pairs unique and ids below the next id |
| `OrderRoutes.DeleteRemovesExactlyOne` | routes/order.py:219-221 | deletion removes one occurrence of the chosen row and no other row. Under unique ids, no remaining row has its id |
| `OrderRoutes.ClaimKeepsLookup` | routes/order.py:104-118 | a claim changes no id, so every lookup by id finds the same row afterwards |
| `OrderRoutes.ClaimIsFinal` | routes/order.py:110-118 | after a claim, a lookup by the order's id finds the same row, now carrying the claimant as driver |
| `OrderRoutes.ClaimMovesOrder` | routes/order.py:115-118 | claiming an available order shrinks the available list by one and grows the claimant's list by one. The claimed id leaves the available list |
| `OrderRoutes.CreatedOrderIsListed` | routes/order.py:76-88 | creating an order adds exactly that order to the available rows; every order available before still is |
| `OrderRoutes.ClaimKeepsDriversRegistered` | routes/order.py:116 | a claim by an existing user keeps every set driver_id pointing at an existing user |
| `OrderRoutes.CreateAndDeleteKeepDriversRegistered` | routes/order.py:87-88 | inserting an unclaimed order, or deleting an order, keeps the driver foreign key |
| `OrderRoutes.TakeTwice` | routes/order.py:104-122 | when a first claim of an order is accepted, a second claim with a decodable token gets 409, and the driver stays the first claimant: at most one claim per order |
| `OrderRoutes.RemoveNoteAsWritten` | routes/order.py:212-217 | as written, once the token decodes and note_id is non-zero, the lookup raises |
| `OrderRoutes.RemoveNoteAsWrittenNeverDeletes` | routes/order.py:214-225 | as written, remove_note never answers 202 for any input |
| `OrderRoutes.RemoveNoteCounterexample` | routes/order.py:214-217 | user 7 owns order 1: the corrected lookup finds it, the code as written raises |

## Left out

- Concurrency. The model is sequential, so each of the following is proved only for requests that run one after another:
  - `TakeOrder` reads the row and then writes it. Two concurrent claimants can both read a NULL driver_id and both succeed, so "at most one claim" can fail.
  - `CreateOrder` checks for an existing (title, description) pair and then inserts. No UNIQUE constraint backs the check, so two concurrent requests can insert the same pair and break `UniquePairs`.
  - `registration` checks for an existing login and then inserts. No UNIQUE constraint backs that check either, so two concurrent requests can insert the same login and break `UniqueLogins`.
- Row order of query results. Neither list query has an ORDER BY, so the database promises no order. The model scans tables in insertion order. Every listing property is stated as membership, count or multiplicity, so none depends on that choice.
- JWT signing and verification are left out. A token decodes through an abstract function to `Ok(claims)`, `Expired` or `Malformed`.
- Token lifetimes. The decoder takes no time and has no link to the claims this service issues. No member outside `Tokens` reads `Claims.exp`, so the 5-hour and 30-minute lifetimes are recorded in the issued claims but have no effect the model can observe.
- The gate and the handlers use the same decoder. A token that expires between the gate and the handler is not modelled.
- The token payload is a record of its three claims. A signed token lacking `user_id` cannot arise in the model.
- The value under `access_token` is JSON null or a string. Numbers, booleans, arrays and objects there are not modelled.
- bcrypt is replaced by an injected deterministic function of (password, salt). Its one-wayness is not modelled.
- UserRoutes.UserStore.Registration: states that the stored password is hash(password, SALT). It does not state that this differs from the plaintext, because nothing about the hasher is assumed.
- `datetime.utcnow()` and the database's `func.now()` become a `now` parameter. SECRET_KEY, ALGORITHM and SALT are fixed configuration.
- Id assignment is the database's (database/database.py is not part of this model). It is modelled as a counter above every id in the table. Only the freshness of the new id is used.
- The modelled statuses are the codes the handlers name. For replies built as Pydantic models (`UserResponse`, `Token`, `BaseResponse`), the framework sends HTTP 200 and the named code travels in the body or is dropped. That framework behaviour is not modelled.
- Framework plumbing is left out: app setup and mounting, the session lifecycle (`get_db`), request validation before a handler runs, response serialisation, the unused `oauth2_bearer`, and the debug `print`.
- Latitude and longitude are only stored and returned. They are carried as `real`, and floating point is not modelled.
- The foreign key `driver_id -> users.id` is not enforced by the handlers. The lemmas that keep it take the claimant's id to be a registered user's id, which holds for tokens this service issues, since users are never deleted.

## Findings

| source | as written | input that shows it | evidently intended | confidence | as-written member | corrected member |
|---|---|---|---|---|---|---|
| routes/order.py:214-217 | the remove filter reads `Order.author_id`, but the Order model (database/models.py:21-36) declares no such column, so the lookup raises and no order can ever be removed | a token decoding to user 7, note_id = 1, and an order 1 whose driver_id is 7 | delete the caller's own order, with ownership given by driver_id | high (not executed) | `OrderRoutes.RemoveNoteCounterexample` | `OrderRoutes.OrderTable.RemoveNote` |
