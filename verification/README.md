# Shop carts, checkouts and login sessions

A Dafny model of the hard parts of the ShoppingCS-LB repository, with proofs:

- the cart and checkout handlers of the shop server, run by any number of load-balanced instances against one set of
  tables, one SQL statement per step and no transactions (`Tables`, `ShopMachine`, `Shop`, and the theorems in
  `CartLinearizability`, `OrderNumbering`, `OrderOwnership`, `ShopAnswers`, `Conservation`; short bad runs in
  `ShopSamples`);
- the money arithmetic behind an order: binary doubles that go through decimal text into `DECIMAL(10,2)` (`Money`);
- the browser's cart as a replica of the server's (`ClientReplica`, `Provider`), and the client's endpoints against the server's
  chain of route tests (`Routing`);
- the session service of the TCP authentication server: a Redis key per token, a Redis set per user and an audit row in
  PostgreSQL, on a clock that moves between commands (`SessionStore`, `SessionLogic`, `SessionService`, and the theorems
  in `SessionProperties`, `SessionAnswers`, `SessionRevocation`, `SessionExact`, `SessionIndex`, `SessionBulk`, `SessionGuarantee`,
  `AuditIndependence`; short bad runs in `SessionSamples`);
- the authentication server's connection table and its periodic sweep (`Connections`).

`dafny verify dfyconfig.toml` checks everything.

## How the pieces fit

The handlers of `server/src/server.js` appear twice. `ShopMachine` gives each request a program counter and its local
variables; an event is one statement of one request, and a run is any sequence of enabled events, so every
interleaving is covered. All theorems about runs are lemmas about this machine. `Shop.Server` writes the handlers as the
source does, with tables changed in place, loops, early returns and other requests running at every `await`; each handler
method is proved to leave behind a run of the machine in which its request is done with the answer the method returns.
`Provider.AppProvider` writes the client's actions on top of `Shop.Server`: call, then dispatch.
`SessionLogic` and `SessionService` are related in the same way: the class methods change the stores in place and are
proved equal, state and result, to the functions about which the theorems speak.

`SessionLogic` takes everything it does not decide from an `Env`: waits, failures, drawn tokens, and the commands that
other requests run in each wait. `World.issued`, `World.revoked` and `World.orderly` are a history (which session was
stored under which token, whose revocation was asked for, and whether other requests have so far kept the per-user sets in
order); no decision of the service depends on them except that drawn tokens are new. Each Redis command and statement has
a number, so that a theorem can name the one command that has to succeed and leave all others free to fail, and the waits
in which nobody else may do a certain thing. What is assumed of other requests' commands (`SessionStore.Permitted`, and
for the per-user sets `SessionStore.IsOrderly`) is what `SessionGuarantee` proves of this service's own.

## What is assumed

- The products table does not change, prices are whole non-negative cents, and the orders table starts empty.
- A statement or Redis command either takes effect once or not at all. A statement can be refused at any moment for a
  reason outside the tables; a body that does not parse, or a quantity that is not an integer, is such a refusal.
- Each double operation, the parsing of a decimal and the printing of a double have a relative error of at most 2^-53
  (section 4.3.1 of IEEE 754-2019, round to nearest); PostgreSQL rounds to two decimals half away from zero.
- `SELECT * FROM order_items WHERE order_id` returns rows in the order in which they were inserted.
- One monotone clock serves Redis and the service; the time to live is constant (and positive where a lemma says so); a
  key is gone once its time to live has fully elapsed; the round trip of GET takes at least one unit of time.
- Drawn tokens and connection ids are new.
- The client never sends `x-session-id`, so all browsers share the session `default-session`
  (`server/src/server.js:22-24`). The theorems that need a session to have one client, or requests that do not overlap,
  say so in their `requires`; the others hold for any sharing.

## What was found

Each failure is a lemma that gives a run, and where there is one, the exact condition is another.

- Conservation of units fails when requests of one session overlap: a checkout clears the whole cart but has written item
  rows only for its earlier snapshot (`ShopSamples.OverlapLosesUnits`). `Conservation.UnitsAreAccountedFor` states the
  difference in every run, and `Conservation.MissedIsWhatCameBetween` which events make it up.
- A cart quantity that is zero or negative (the server accepts it in a POST) makes the client's update filter disagree
  with the server (`ShopSamples.UpdateAfterNothingDisagrees`), exactly then:
  `ClientReplica.UpdateMatchesExactlyIfOthersPositive`.
- If the SELECT behind a cart answer is refused after the change went through, the client is out of step
  (`ShopSamples.LostAnswerDisagrees`), unless the change changed nothing: `ClientReplica.LostAnswerBreaksAgreement`. A
  reload repairs it: `Provider.LoadedCartEqualsServerCart`.
- `searchProducts` never reaches the product list: `Routing.SearchIsShadowed`.
- A logout answers the same whether its DEL succeeds or fails, and in the second case the token still validates:
  `SessionProperties.LogoutEndsExactlyIf`, `SessionProperties.LivingTokensValidate`.
- A live session can get out of its user's set, so that a bulk revocation misses it: by a logout whose DEL fails and whose
  SREM succeeds (`SessionSamples.FailedDelLeavesUnindexed`), by a bulk revocation whose SMEMBERS fails
  (`SessionSamples.FailedListingLeavesUnindexed`) or whose DEL of a listed key does
  (`SessionSamples.FailedKeyDelLeavesUnindexed`), and by a login between its SMEMBERS and its last DEL
  (`SessionSamples.OvertakenBulkLeavesUnindexed`); by a creation whose EXPIRE fails
  (`SessionSamples.FailedExpireLeavesUnindexed`) or comes after the set has run out
  (`SessionSamples.LateExpireLeavesUnindexed`), and by one whose SADD fails, which answers with an error and leaves the
  session (`SessionSamples.FailedAddLeavesUnindexed`). The exact conditions are `SessionIndex.RemovalIsSafeExactlyIf`,
  `SessionIndex.DeletingTheSetIsSafeExactlyIf`, `SessionIndex.AddIndexesExactlyIf` and
  `SessionIndex.CreationIndexesExactlyIf`.

## Model

| member | source | states |
|---|---|---|
| Decimal.RenderInjective | server/src/server.js:380 | two numbers with the same decimal text are the same number |
| Decimal.OrderIdInjective | server/src/server.js:380 | two counts give the same order id only if they are equal |
| Decimal.RenderReadsBack | server/src/server.js:380 | the decimal text of a number has digits only, no leading zero, and reads back as the number |
| Decimal.OrderIdReadsBack | server/src/server.js:380 | an order id is `ORD-` followed by the decimal text of its number |
| Money.HalfAwayIsNearest | server/db/schema.sql:64 | a DECIMAL column stores a nearest whole number of cents, and of two equally near ones the one farther from zero |
| Money.TotalError | server/src/server.js:373-376 | the float total of n lines is within (n + 2) times 2^-53 (with a small allowance) of the exact total, relative to the sum of absolute line values, for quantities of either sign |
| Money.SubtotalExact | server/src/server.js:399-403 | a stored subtotal is exactly price times quantity in cents whenever that fits the column |
| Money.TotalExact | server/src/server.js:373-376 | the stored total is exactly the cent sum, for up to 450000 lines of either sign that together fit the column |
| Money.TotalDecidedExactly | server/db/schema.sql:64 | for positive quantities the column accepts the total if and only if the exact total fits, and then stores exactly that |
| ShopMachine.StatementFrame | server/src/server.js:152-439 | which statement can change which table, that a count read is the number of orders at that moment, and that a request stays in its session |
| ShopMachine.ProcessesServeTheirRequests | server/src/server.js:152-439 | in every run every handler still carries its own request's parameters |
| ShopMachine.CartStaysInCatalogue | server/db/schema.sql:46 | in every run every cart row refers to an existing product, so the join with products loses no row |
| Shop.Server.AddQuantity | server/src/server.js:175-178 | the in-place UPDATE adds to exactly one row, does nothing without the row, and is rejected outside INTEGER with nothing changed |
| Shop.Server.InsertCartItem | server/src/server.js:181-184 | the in-place INSERT is accepted exactly if the unique key, the foreign key and the column types allow it |
| Shop.Server.SetQuantity | server/src/server.js:232-235 | the in-place UPDATE sets exactly one row or none, and is rejected outside INTEGER |
| Shop.Server.InsertOrder | server/src/server.js:383-395 | the in-place INSERT is rejected exactly by the primary key, the id's width or the amount's range, with nothing changed |
| Shop.Server.InsertOrderItem | server/src/server.js:400-404 | the in-place INSERT appends one row, or is rejected by a foreign key or the amount's range |
| Shop.Server.Await | server/src/server.js:163-196 | at every await any enabled events of other requests may run, and the handler's own position is kept or its request fails |
| Shop.Server.GetCart | server/src/server.js:128-150 | leaves a run of the machine in which this request is answered, and a successful answer lists the session's cart |
| Shop.Server.PostCart | server/src/server.js:152-211 | leaves a run of the machine in which this request is begun and done with exactly this answer, and a successful answer lists the cart as it is then |
| Shop.Server.PutCartItem | server/src/server.js:213-261 | the same for the handler that deletes a row if the quantity is not positive and sets it otherwise |
| Shop.Server.DeleteCartItem | server/src/server.js:263-293 | the same for the handler that deletes one row |
| Shop.Server.DeleteCart | server/src/server.js:295-305 | the same for the handler that clears the session's cart |
| Shop.SumUp | server/src/server.js:373-376 | the loop's total is one that the rounding of each double operation allows for exactly these rows |
| Shop.Multiply | server/src/server.js:399 | the product is one that parsing and one rounded multiplication allow |
| Shop.Server.CreateItems | server/src/server.js:398-405 | the loop inserts the rows in order, one statement each with others in between, and ends before the clearing of the cart or at the first rejection |
| Shop.Server.PlaceOrder | server/src/server.js:358-395 | cart, total, count and order row are four statements with others in between; afterwards the request stands at its first item row or has failed without a write |
| Shop.Server.PostOrder | server/src/server.js:347-439 | leaves a run of the machine in which this checkout is answered; an answered order's rows are what the session's cart was at some moment, it holds one item row for each of them in order with that product and quantity and the catalogue's name and price, and its stored total is both the exact total and the sum of the stored subtotals |
| ShopAnswers.PostIsAnswered | server/src/server.js:163-209 | in every run a POST that is not refused from outside is answered ProductMissing exactly if the product is not in the catalogue; otherwise it has updated or inserted its line as its own SELECT decided, with the effect and the 32-bit and 255-character limits written out, and is answered Okay exactly if that write was accepted |
| ShopAnswers.PostFailsOnlyIf | server/db/schema.sql:43-53 | such a POST fails only because its session has more than 255 characters, its quantity or the sum is not a 32-bit integer, or a row for its line was inserted between its SELECT and its INSERT |
| ShopAnswers.WriteIsAnswered | server/src/server.js:213-305 | a PUT, a DELETE of a line or a DELETE of the cart that is not refused has written once, with the effect written out, and is answered Okay unless it is a PUT of more than 2147483647 |
| ShopAnswers.ShowIsAnswered | server/src/server.js:128-150 | GET /api/cart fails only if it is refused from outside |
| ShopAnswers.CheckoutIsAnswered | server/src/server.js:347-436 | a checkout that is not refused is answered CartEmpty only if its SELECT found no row of its session, Failed only if an order came in between its count and its INSERT or a column was too narrow, and otherwise Created, its order inserted under a free id with its total and read back |
| ShopAnswers.OrderIsInsertedExactlyIf | server/src/server.js:383-395 | in every run the order INSERT is accepted exactly if no order came in since the count, the id has at most 50 characters and the amount fits, and then adds exactly that row |
| ShopAnswers.ItemIsInsertedExactlyIf | server/src/server.js:400-404 | in every run an item INSERT is accepted exactly if its subtotal fits the column |
| CartLinearizability.StatementPerforms | server/src/server.js:152-305 | every statement's effect on cart_items is that of the atomic operations placed at its moment |
| CartLinearizability.CartsAreLinearizable | server/src/server.js:152-305 | in every run cart_items is what one sequential order of atomic add, set, remove and clear operations produces; each effective request occurs in it exactly once and inside its own interval, each other request not at all |
| CartLinearizability.RealTimeOrder | server/src/server.js:152-305 | a request answered before another began comes first in that order |
| CartLinearizability.AddBeforeRemoval | server/src/server.js:173-178 | an add whose UPDATE hits no row can be placed just before the last removal of its line without changing the outcome |
| CartLinearizability.LateHasRemoval | server/src/server.js:173-178 | whenever an UPDATE hits no row, a removal of its line has come since the SELECT that saw it, so there is such a place inside the request's interval |
| OrderNumbering.RunsAreNumbered | server/src/server.js:379-380 | in every reachable state the order ids are exactly ORD-1 to ORD-n, n being the number of orders, and no count held by a checkout exceeds n |
| OrderNumbering.FirstInsertWins | server/db/schema.sql:58 | a checkout about to insert passes the primary key if and only if no order was inserted since it counted |
| OrderNumbering.OrdersOnlyGrow | server/src/server.js:383-395 | over any run orders are neither removed nor overwritten |
| OrderNumbering.OvertakenCheckoutIsRejected | server/src/server.js:379-395 | once overtaken a checkout is rejected for good whatever its total; not overtaken it can fail only on the id's width or the amount's range |
| OrderNumbering.FailedRequestsWroteNothing | server/src/server.js:152-439 | in every run a request that was answered without a successful write statement has changed no table at any of its statements |
| OrderOwnership.OrdersAreOwned | server/src/server.js:383-405 | in every reachable state the item rows under an order id are a prefix of the one snapshot its creator read, with the product, name, price and quantity of each snapshot row and a subtotal that they allow, and every order being written has exactly one writer |
| OrderOwnership.ItemsAreCatalogued | server/src/server.js:399-405 | in every run each item row has the name and the price that the catalogue has for its product |
| OrderOwnership.SnapshotsWereCarts | server/src/server.js:359-366 | the rows behind every order list its creator's own cart as it was at some moment of the run |
| OrderOwnership.SubtotalsAddUp | server/db/schema.sql:77 | the stored subtotals of a whole order add up to its exact total |
| OrderOwnership.RereadSeesTheWholeOrder | server/src/server.js:411-430 | when a checkout reads its order back, the rows are its whole snapshot in order and the stored total equals both the exact total and the sum of the stored subtotals |
| Conservation.UnitsAreAccountedFor | server/src/server.js:347-439 | in every run, overlapping requests included, units put in equal units in the cart plus units in completed orders plus exactly what checkouts deleted beyond their snapshots |
| Conservation.SerialRunsLoseNothing | server/src/server.js:359-408 | if the session's requests do not overlap, no checkout deletes anything beyond its snapshot |
| Conservation.UnitsAreConserved | server/src/server.js:347-439 | then at every moment units put in equal units in the cart plus units in completed orders, wherever a checkout stops and whatever other sessions do |
| Conservation.SnapshotWasTaken | server/src/server.js:359-366 | every checkout that holds a snapshot took it at one SELECT of its own, and it listed the session's cart at that moment |
| Conservation.MissedIsWhatCameBetween | server/src/server.js:359-408 | what a checkout deletes beyond its snapshot is exactly the sum of what other requests and other checkouts of the session did to the line between its SELECT and its DELETE |
| ShopSamples.OverlapLosesUnits | server/src/server.js:347-439 | a run of twelve events in which an update comes between a checkout's SELECT and DELETE and one unit is lost |
| Conservation.SerialRunsKeepListings | server/src/server.js:359-408 | then a checkout's snapshot still lists the session's cart until its own DELETE |
| Conservation.OpenOrdersAreNotComplete | server/src/server.js:398-408 | an order counts as complete only after its last item row and the clearing of the cart |
| ClientReplica.AddMatches | client/src/context/AppContext.tsx:25-42 | the reducer's two branches for an addition agree with the server's insert or update of one row |
| ClientReplica.RemoveMatches | client/src/context/AppContext.tsx:52-56 | the reducer's filter agrees with the server's deletion of one row |
| ClientReplica.UpdateMatchesExactlyIfOthersPositive | client/src/context/AppContext.tsx:43-51 | the reducer's update, which filters every line that is not positive, agrees with the server's change of one row if and only if no other line is zero or negative |
| ClientReplica.ReducingKeepsTheOrder | client/src/context/AppContext.tsx:23-58 | no action moves a line past another, and a new line comes last |
| ClientReplica.MatchesMeansEqual | client/src/context/AppContext.tsx:107-165 | agreement line by line is equality of the two carts as maps from product to quantity |
| ClientReplica.ReplicaStaysInStep | client/src/context/AppContext.tsx:107-165 | from any moment at which the client waits for nothing and agrees with the server, whatever happened before, it stays in step at every statement for as long as the session is its own and no answer is lost whose change went through, whatever other sessions do |
| ClientReplica.ReplicaEqualsServerCart | client/src/context/AppContext.tsx:107-165 | whenever it is then not waiting, its cart as a map equals its rows in cart_items, ids are unique and quantities positive, failures by missing product, rejected constraint or refused statement included |
| ClientReplica.ReplicaGoesOn | client/src/context/AppContext.tsx:15-66 | what the client holds depends on the past only through what it held at any moment in between |
| ClientReplica.LostAnswerBreaksAgreement | server/src/server.js:187-194 | if the SELECT behind an answer is refused, the client agrees with the server if and only if the missed action would have changed nothing |
| ShopSamples.LostAnswerDisagrees | server/src/server.js:187-194 | a run of five events in which an added row is in the table and not at the client |
| ShopSamples.UpdateAfterNothingDisagrees | client/src/context/AppContext.tsx:43-51 | a run of eight events in which a line of quantity 0 is in the table and filtered away at the client |
| ShopSamples.Alone | server/src/server.js:128-439 | an outside with nobody else running, carts listed in some order and no rounding meets all that the handler contracts assume |
| Provider.OneRequestOneAction | client/src/context/AppContext.tsx:107-165 | from its beginning on, a request of a client that waits for it changes the replica exactly once, by its own action, if it is answered with success, and never if it fails |
| Provider.LoadedCart | client/src/context/AppContext.tsx:96-105 | after a successful load the client holds the answer's rows, whatever it held and whatever happened before |
| Provider.LoadedCartEqualsServerCart | client/src/context/AppContext.tsx:96-105 | those rows as a map are the session's rows in cart_items, without duplicates |
| Provider.IdleClientStillAgrees | client/src/context/AppContext.tsx:107-165 | a client opened on a server with any history agrees now if it agreed at any moment since which the session has been its own |
| Provider.AppProvider.LoadCart | client/src/context/AppContext.tsx:96-105 | a successful load makes the client's cart equal to the session's rows, whatever came before; besides, the same as the next |
| Provider.AppProvider.AddToCart | client/src/context/AppContext.tsx:107-116 | the answer is the server's to a request of this call, and the cart is reduced exactly if it is a success; if nobody else used the session meanwhile, the client's cart is again the replica of all that happened since it opened, and equals the session's rows if they agreed at any moment since which the session has been its own |
| Provider.AppProvider.UpdateCartItem | client/src/context/AppContext.tsx:118-127 | the same for the update |
| Provider.AppProvider.RemoveFromCart | client/src/context/AppContext.tsx:129-138 | the same for the removal |
| Provider.AppProvider.ClearCart | client/src/context/AppContext.tsx:140-149 | the same for the clearing |
| Provider.AppProvider.CreateOrder | client/src/context/AppContext.tsx:151-165 | the same for the checkout; besides, the order that the client keeps is whole and its total exact |
| SessionStore.ExecuteKeepsSound | tcp-auth-server/internal/service/session_service.go:64-84 | every command the service sends keeps keys, rows and sets those of the sessions issued, keeps a key at least until its session's expiry, and never brings a token back |
| SessionStore.UpsertKeepsTheUser | tcp-auth-server/internal/repository/session_repo.go:26-40 | the audit INSERT adds one row, or on conflict renews the expiry of the row that is there and keeps its user; no other row changes |
| SessionStore.PassKeepsSound | tcp-auth-server/pkg/redis/client.go:42-94 | so do waits of any length with any such commands of other requests in them |
| SessionLogic.GetSession | tcp-auth-server/internal/service/session_service.go:90-105 | ends from every sound world, which the nearing Redis deadline guarantees, and keeps the invariant |
| SessionLogic.DeleteSession | tcp-auth-server/internal/service/session_service.go:113-141 | the same for the other half of the mutual recursion |
| SessionLogic.CreateSession | tcp-auth-server/internal/service/session_service.go:48-87 | a session is returned only under a token never issued before, for the given user, and is on record as returned |
| SessionLogic.RefreshSession | tcp-auth-server/internal/service/session_service.go:144-163 | keeps the invariant, and a session is returned only as stored |
| SessionLogic.DeleteUserSessions | tcp-auth-server/internal/service/session_service.go:166-189 | keeps the invariant with any interference between its commands |
| SessionLogic.Run | tcp-auth-server/internal/handler/auth_handler.go:64-150 | any sequence of requests keeps the invariant, and what happened stays on record |
| SessionService.Service.Do | tcp-auth-server/pkg/redis/client.go:42-94 | each Redis command and audit statement changes the stores in place as the store's semantics says |
| SessionService.Service.Audit | tcp-auth-server/internal/repository/session_repo.go:26-86 | an audit statement takes effect once or not at all, after a wait, and its error changes nothing else |
| SessionService.Service.GetSession | tcp-auth-server/internal/service/session_service.go:90-105 | the statements leave exactly the world and the result of the function the theorems are about, and end |
| SessionService.Service.DeleteSession | tcp-auth-server/internal/service/session_service.go:113-141 | the same |
| SessionService.Service.CreateSession | tcp-auth-server/internal/service/session_service.go:48-87 | the same |
| SessionService.Service.RefreshSession | tcp-auth-server/internal/service/session_service.go:144-163 | the same |
| SessionService.Service.DeleteListed | tcp-auth-server/internal/service/session_service.go:174-178 | the loop over the listed tokens does what the recursive specification does |
| SessionService.Service.DeleteUserSessions | tcp-auth-server/internal/service/session_service.go:166-189 | the same for the whole of bulk revocation |
| SessionService.Authentication.Login | tcp-auth-server/internal/service/auth_service.go:90-117 | the same for the login, its early rejections included |
| SessionService.Authentication.Logout | tcp-auth-server/internal/service/auth_service.go:120-126 | the same for the logout |
| SessionService.Authentication.ValidateToken | tcp-auth-server/internal/service/auth_service.go:129-145 | the same for the validation |
| SessionService.Authentication.Refresh | tcp-auth-server/internal/handler/auth_handler.go:124-150 | the same for the refresh handler, which validates the token before it refreshes it |
| SessionProperties.ValidatesExactlyUntilExpiry | tcp-auth-server/internal/service/auth_service.go:129-145 | if this validation's GET and lookup succeed, a token whose revocation nobody has asked for validates to its own user at every instant strictly before its expiry and at none after, with time and other requests between commands |
| SessionProperties.ValidMeansIssued | tcp-auth-server/internal/service/auth_service.go:129-145 | a successful validation names the user the token was issued to, an existing one, and the session had not expired |
| SessionProperties.ReturnedTokensValidate | tcp-auth-server/internal/service/session_service.go:48-105 | over any later requests, whatever fails in them, a returned token validates until its expiry or revocation and never after its expiry |
| SessionProperties.MissedMeansRevokedOrExpired | tcp-auth-server/internal/service/session_service.go:90-105 | if the GET is answered, a session is not found only after its revocation was asked for or its expiry has come |
| SessionProperties.DeleteSessionClears | tcp-auth-server/internal/service/session_service.go:113-141 | however the recursion goes, whatever else fails and whoever interferes, on return the key is gone if this call's own DEL succeeded, and the audit row if its own DELETE did |
| SessionProperties.EndingRequestsKill | tcp-auth-server/internal/service/auth_service.go:120-126 | a logout or a successful refresh leaves the token dead if the DEL that is part of it succeeded |
| SessionProperties.DeadTokensAreDenied | tcp-auth-server/internal/service/auth_service.go:129-145 | a token that is out of Redis or past its expiry is denied after any further requests with any interference |
| SessionProperties.DeadTokensStayDead | tcp-auth-server/internal/service/session_service.go:113-163 | once logged out or refreshed away with a successful DEL, or expired, a token is denied after any further requests with any failures and any interference |
| SessionProperties.LogoutEndsExactlyIf | tcp-auth-server/internal/service/session_service.go:113-141 | if nobody else deletes the key, a logout of a stored token ends its life if and only if its DEL succeeds or the session has expired anyway; the answer is the same |
| SessionProperties.LivingTokensValidate | tcp-auth-server/internal/service/auth_service.go:129-145 | a token that is not dead validates before its expiry if the validation's GET and lookup succeed and nobody deletes the key, even after a logout |
| SessionProperties.GetSessionEndsByDeadline | tcp-auth-server/internal/service/session_service.go:90-105 | the mutual recursion sends at most five commands and clock readings for each instant until the Redis deadline, and two more |
| SessionProperties.DeleteSessionEndsByDeadline | tcp-auth-server/internal/service/session_service.go:113-141 | the same bound from the deleting half |
| SessionAnswers.CreationIsAnsweredExactlyIf | tcp-auth-server/internal/service/session_service.go:48-87 | with any interference, a creation is answered with a session exactly if its SET and its SADD succeed; the session is the user's and expires one time to live after the clock was read |
| SessionAnswers.StoredForOneTimeToLive | tcp-auth-server/internal/service/session_service.go:55-68 | once SET, the key holds that session and is kept for one time to live from the SET |
| SessionAnswers.LoginIsAnsweredExactlyIf | tcp-auth-server/internal/service/auth_service.go:90-117 | a login succeeds exactly if both strings are non-empty, the lookup succeeds, the account exists, its hash matches, and SET and SADD succeed, and the session is then that account's |
| SessionAnswers.RefreshIsAnsweredExactlyIf | tcp-auth-server/internal/service/session_service.go:144-163 | a refresh succeeds exactly if the session is found, its user is, and SET and SADD of the new session succeed, whatever becomes of the deletion; the new session is the same user's |
| SessionAnswers.RefreshRequestIsAnsweredExactlyIf | tcp-auth-server/internal/handler/auth_handler.go:124-150 | the refresh handler succeeds exactly if its validation and the refresh after it do |
| SessionAnswers.ValidationIsAnsweredExactlyIf | tcp-auth-server/internal/service/auth_service.go:129-145 | a validation succeeds exactly if the token is not empty, the session is found and its user is, and names that user |
| SessionAnswers.LogoutIsAnsweredExactlyIf | tcp-auth-server/internal/service/auth_service.go:120-126 | a logout succeeds for every token but the empty one, whatever fails and whether or not there is such a session |
| SessionExact.GetSessionTouchesOnly | tcp-auth-server/internal/service/session_service.go:90-105 | if nobody else runs in its own waits, a lookup changes at most its own token's key, row and index entry, whatever fails |
| SessionExact.DeleteSessionForgets | tcp-auth-server/internal/service/session_service.go:113-141 | if nobody else runs in its own waits, a deletion takes out its token's key and row as far as its own DEL and DELETE succeed, and touches no other token, row or set member |
| SessionExact.LogoutUnindexes | tcp-auth-server/internal/service/session_service.go:123-133 | a logout that finds the session takes the token out of its user's set if its SREM succeeds and nobody else runs in its own waits |
| SessionExact.CreateSessionCreates | tcp-auth-server/internal/service/session_service.go:48-87 | if nobody else runs in its own waits, a creation is answered with a token exactly if its SET and SADD succeed; it then adds one fresh session expiring no earlier than now plus the time to live, with a row exactly if its audit statement succeeds, and touches no other token and no other user's set; a failed SADD leaves a stored session that nobody is told of |
| SessionExact.RefreshIsAnExactSwap | tcp-auth-server/internal/service/session_service.go:144-163 | if nobody else runs in its own waits, a successful refresh takes the old token out of both stores as far as its own DEL and DELETE succeed, returns a fresh one of the same user expiring no earlier, and leaves every other key and row as it was, even if the old session expires on the way |
| SessionRevocation.RunSpares | tcp-auth-server/internal/service/auth_service.go:90-145 | a token's revocation is not on record after any requests with any failures, unless one of them, or another request meanwhile, names it or revokes all its user's tokens |
| SessionRevocation.UnrevokedTokensLive | tcp-auth-server/internal/service/auth_service.go:90-145 | a token on record and not revoked validates to its own user until its expiry after any requests that do not ask to revoke it, with any failures and any interference that does not either |
| SessionRevocation.TokensLiveUntilNamed | tcp-auth-server/internal/service/auth_service.go:90-145 | a returned token validates to its own user strictly before its expiry unless a later request, or another one in some wait between its SET and the validation, names it in a logout or refresh or revokes all its user's tokens |
| SessionIndex.CreationIndexesExactlyIf | tcp-auth-server/internal/service/session_service.go:64-78 | whatever the time between the commands, and whatever others do but change this user's set meanwhile, the session that CreateSession stored is in its user's set for its whole life if and only if SADD succeeded, the set had not run out by EXPIRE, and EXPIRE succeeded or the set lasts as long anyway |
| SessionIndex.AddIndexesExactlyIf | tcp-auth-server/internal/service/session_service.go:70-75 | after SADD alone the session is in its user's set for its whole life if and only if a set that was there does not run out earlier |
| SessionIndex.RemovalIsSafeExactlyIf | tcp-auth-server/internal/service/session_service.go:129-133 | SREM keeps the index complete if and only if it does not take out a live session of that user |
| SessionIndex.DeletingTheSetIsSafeExactlyIf | tcp-auth-server/internal/service/session_service.go:180-181 | deleting a user's set keeps the index complete if and only if the user has no live session at that moment |
| SessionIndex.OtherCommandsAreSafe | tcp-auth-server/internal/service/session_service.go:64-84 | every other command but SET always keeps it complete |
| SessionIndex.InterferenceKeepsIndexComplete | tcp-auth-server/internal/service/session_service.go:64-141 | other requests keep it complete if their creations run as one block, they SREM only what is not live, and delete no set with a live session |
| SessionIndex.GetSessionKeeps | tcp-auth-server/internal/service/session_service.go:90-105 | a lookup keeps it complete with any failures, since the deletion it starts does not find the expired session |
| SessionIndex.DeleteSessionKeeps | tcp-auth-server/internal/service/session_service.go:113-141 | a deletion keeps it complete if its SREM does not succeed after its DEL failed; every other failure is harmless |
| SessionIndex.CreateSessionKeeps | tcp-auth-server/internal/service/session_service.go:48-87 | a creation keeps it complete if its SADD and EXPIRE follow a successful SET in the same instant, and also if the SET fails |
| SessionBulk.IndexStaysComplete | tcp-auth-server/internal/service/session_service.go:64-189 | in every state that such requests reach, with any other failures and any orderly interference, each live session's token is in its user's set, the set lasts at least as long but no longer than one time to live from now, no set is empty, and every token in a set was issued to that user |
| SessionBulk.CarefulBulkLeavesNobody | tcp-auth-server/internal/service/session_service.go:166-181 | if SMEMBERS and the DEL of every listed key succeed and nobody creates a session of the user meanwhile, no session of the user is live when the set is deleted, with any other interference |
| SessionBulk.DeleteUserSessionsKeeps | tcp-auth-server/internal/service/session_service.go:166-189 | a bulk revocation keeps the index complete if it deletes the set only in that case |
| SessionBulk.ListingIsComplete | tcp-auth-server/internal/service/session_service.go:167-171 | with any orderly interference the members listed belong to the user, and if SMEMBERS succeeds they include every live session of the user |
| SessionBulk.BulkRevocationMissesNone | tcp-auth-server/internal/service/session_service.go:165-189 | if its own SMEMBERS and DELs succeed and nobody else runs in its own waits, after a bulk revocation no live session or set of the user is left, no row if its last statement succeeds, and every other user's keys, rows and sets are unchanged |
| SessionBulk.BulkRevocationLeavesExactly | tcp-auth-server/internal/service/session_service.go:165-189 | whatever fails, if nobody else runs in its own waits, exactly those keys go that were listed and of which a DEL succeeded, the set goes exactly if its DEL succeeds, and every other user's keys, rows and sets are unchanged |
| SessionBulk.SurvivorsAreUnindexed | tcp-auth-server/internal/service/session_service.go:174-181 | a session of which no DEL succeeded stays live, and is in no set if the DEL of the set succeeds |
| SessionSamples.LogoutWithFailedDel | tcp-auth-server/internal/service/session_service.go:123-133 | in every such world a logout whose DEL fails and whose SREM succeeds answers as usual and leaves the session live and out of its set |
| SessionSamples.FailedDelLeavesUnindexed | tcp-auth-server/internal/service/session_service.go:123-133 | a world and an outside in which that happens |
| SessionSamples.BulkWithFailedListing | tcp-auth-server/internal/service/session_service.go:168-181 | in every world a bulk revocation whose SMEMBERS fails and whose DEL of the set succeeds leaves every session of the user stored and out of the index |
| SessionSamples.FailedListingLeavesUnindexed | tcp-auth-server/internal/service/session_service.go:168-181 | a world and an outside in which that happens |
| SessionSamples.FailedKeyDelLeavesUnindexed | tcp-auth-server/internal/service/session_service.go:174-181 | the same with SMEMBERS succeeding and the DEL of the one listed key failing |
| SessionSamples.OvertakenBulkLeavesUnindexed | tcp-auth-server/internal/service/session_service.go:168-181 | the same with nothing failing and a login between SMEMBERS and DEL |
| SessionSamples.LateExpireLeavesUnindexed | tcp-auth-server/internal/service/session_service.go:69-78 | a creation with nothing failing whose set runs out between SADD and EXPIRE: the returned session is live and unindexed |
| SessionSamples.FailedExpireLeavesUnindexed | tcp-auth-server/internal/service/session_service.go:75-78 | a creation whose EXPIRE fails while the set has an earlier deadline: the returned session is live and unindexed |
| SessionSamples.FailedAddLeavesUnindexed | tcp-auth-server/internal/service/session_service.go:72-74 | a creation whose SADD fails: the answer is an error, and a session is live and unindexed |
| SessionGuarantee.RequestsSendPermitted | tcp-auth-server/internal/service/session_service.go:48-189 | every request does nothing but wait and send the commands listed for it, and each of them is permitted in the world that it finds |
| SessionGuarantee.CarefulRequestsAreOrderly | tcp-auth-server/internal/service/session_service.go:48-189 | every command that a careful request sends is orderly in the world that it finds, and its SETs begin creations in one instant: what is assumed of other requests is what the service's own requests do |
| SessionIndex.Startup | tcp-auth-server/main.go:76-89 | a service that has issued nothing satisfies the invariant and has a complete index |
| AuditIndependence.AuditSame | tcp-auth-server/internal/service/session_service.go:80-84 | an audit statement that fails in one run only leaves both runs equal outside the audit table |
| AuditIndependence.AuditFailuresChangeNoAnswer | tcp-auth-server/internal/service/session_service.go:80-138 | runs that differ only in which audit statements fail give the same answers throughout |
| AuditIndependence.AuditAgreesWithRedis | tcp-auth-server/internal/repository/session_repo.go:26-74 | in every run a token in both Redis and the audit table has the same user and expiry in both |
| Connections.Server.Register | tcp-auth-server/main.go:157-166 | the table gains exactly the new connection, seen now |
| Connections.Server.Touch | tcp-auth-server/main.go:184-186 | a line renews the connection's time if it is still in the table, and brings nothing back if it is not |
| Connections.Server.Unregister | tcp-auth-server/main.go:169-180 | the deferred removal removes that connection only, and closes it |
| Connections.Server.Sweep | tcp-auth-server/main.go:250-271 | deleting while iterating, in any order, leaves exactly the connections not older than 30 minutes and closes exactly the others |
| Connections.TableHoldsExactlyTheOpen | tcp-auth-server/main.go:156-271 | in every timed run the table holds exactly the connections that have registered, have not ended, and were heard within 30 minutes before every sweep since |
| Connections.TableIsOpen | tcp-auth-server/main.go:156-271 | in every timed run no connection of the table has been closed |
| Connections.SilentConnectionIsRemovedInTime | tcp-auth-server/main.go:250-271 | a connection that falls silent is in the table and open until, and gone and closed from, exactly one sweep more than 30 and at most 35 minutes after its last message |
| Connections.DeferredRemovalChangesNothing | tcp-auth-server/main.go:169-180 | after a sweep removed a connection, its deferred removal changes nothing however late it comes |
| Connections.EndingCommutesWithSweeping | tcp-auth-server/main.go:169-271 | ending a connection before or after a sweep gives the same table |
| Routing.RoundTripExactlyIf | client/src/services/api.ts:55-117 | every call but a search reaches its intended handler with exactly its id, if and only if the id has no slash, question mark or number sign |
| Routing.PlainCallsRoundTrip | client/src/services/api.ts:55-117 | for ids of letters, digits, '-' and '_' every call is routed as intended, and no two calls reach the same handler with the same id |
| Routing.FixedHandlersExactlyIf | server/src/server.js:88-347 | each handler without an id, apart from the health check, takes the one request meant for it and no other |
| Routing.EmptyCartExactlyIf | server/src/server.js:295 | the cart is emptied by DELETE /api/cart and by nothing else |
| Routing.HealthExactlyIf | server/src/server.js:76 | the health check takes its path with every verb, and no other path |
| Routing.HandlersWithIdExactlyIf | server/src/server.js:109-441 | each handler with an id takes exactly the requests that the calls meant for it can print |
| Routing.NotFoundExactlyIf | server/src/server.js:480 | a request is answered with 404 exactly if it is neither for the health check nor one that the client can print |
| Routing.SearchIsShadowed | client/src/services/api.ts:63-65 | every search is routed to the single-product handler with the id "search" |
| Routing.IdSurvivesExactlyIf | server/src/server.js:111 | what split('/')[3] yields is the printed id if and only if nothing in it ends the segment or the path |

## Left out

- Infrastructure, containers, chaos scripts, nginx weights and failover: configuration; the balancer's choice of an instance makes no difference in the model.
- React components, pages, filters and sorting: user interface.
- HTTP, CORS, JSON, TCP framing, connection pools, environment parsing, logging.
- bcrypt, random bytes and UUIDs: a matching relation and fresh values.
- Registration, GET of products and of orders, customer fields, order status and timestamps: easy members.
- ClientReplica.ReplicaEqualsServerCart: for one client per session that waits for each answer, from a moment of agreement on; the product object of a cart line is its id.
- Conservation.UnitsAreConserved: for requests of one session that do not overlap; the general account is UnitsAreAccountedFor.
- SessionBulk.IndexStaysComplete: for creations whose Redis commands succeed in one instant, SREM only after a successful DEL, and DEL of a set only after a successful SMEMBERS and DEL of every listed key with no creation for the user meanwhile. SessionSamples has a failing world for each command whose failure matters and for each of the two delays; that the three commands of a creation run in one instant is more than the new session needs (CreationIndexesExactlyIf), and is what other requests are assumed to do.
- SessionBulk.BulkRevocationMissesNone: for no other requests in its own waits; what holds with interference is CarefulBulkLeavesNobody, and with failures BulkRevocationLeavesExactly.
- SessionExact.RefreshIsAnExactSwap: for no other requests in its own waits; what holds of the two tokens with interference is in SessionProperties and SessionRevocation.
- Money.TotalExact: up to 450000 lines; the original promises no bound, and the error grows with the number of lines.
- Routing.RoundTripExactlyIf: for ids of letters, digits, '-', '_', '/', '?' and '#'; other characters are encoded or normalised by the URL parser, which is not modelled.
- Connections.Server.Sweep: the data race on LastSeen is not modelled (each access is atomic), nor are the Redis keys of connections.
- Server.Close, which sets the connection table to nil: runs are modelled before shutdown.
- The variable that handleRefresh declares without using it, which Go rejects: the check and the refresh are modelled as intended.
- The repository methods that no service operation here calls (GetSession and CleanExpiredSessions on the audit table, Exists on Redis).
- Failures of the random generator in GenerateToken, and partial effects of a failed command.
