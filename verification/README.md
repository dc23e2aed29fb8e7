# Users request-validation middleware, modelled in Dafny

This project models `UsersMiddleware` from a TypeScript/Express users API. It has six
validators. Each one looks at a request, meaning the path parameter `userId`, the JSON
body and the per-request slot `res.locals.user`. It then either calls `next()` or ends
the request with a status code and a literal JSON error body. A route runs a list of
these validators in order and stops at the first response.

- `js_value.dfy` (module `JsValue`): the JavaScript values a parsed body holds, `undefined`,
  truthiness (`if (v)`) and property reads (`o.key`).
- `users_middleware.dfy` (module `UsersMiddleware`): the user record, the user service
  as two lookups, the request, the outcome (`Continue`, or `Respond(status, payload)`), and
  the six validators as decisions on one request. `validateUserExistence` and `extractUserId`
  write to the request. Each of them is given here as the step it computes, `UserExistenceStep`
  and `ExtractUserIdStep`.
- `middleware_chain.dfy` (module `MiddlewareChain`): a route's list of validators. It has
  `Apply` (one validator), `Run` (the chain, which stops at the first response), the readiness
  condition `Safe`, the ordering rule `WellOrdered`, and the lemmas about running chains.
- `request_context.dfy` (module `RequestState`): class `RequestContext` is the mutable request.
  `ValidateUserExistence` may change only `locals.user` (`modifies this`user`), and
  `ExtractUserId` only the body (`modifies this`body`). `RunChain` is the loop that runs a
  route's validators on the object. Each method is proved equal to the value-level function
  above it.

A few points where the model follows the code literally:

- The ownership check compares `locals.user._id`, not `id`, with `params.userId`.
- `validatePatchEmail` checks truthiness, not presence. An email of `""`, `0`, `false` or
  `null` is not checked.
- `userCantChangePermission` tests with `in` whether the key exists. A present `null` is
  therefore always refused, since the stored flags are a number. `locals.user` is read only when
  the key is present, because `&&` short-circuits.
- The misspelt message `User cannot changer permission flags` and the `errors` (plural) key
  are kept as written.

Each validator returns exactly one `Outcome` value, so "either `next()` or one response, never
both and never neither" holds by construction. Reading a property of an unset
`locals.user` throws a `TypeError`, and then neither happens. The model makes that case a
precondition (`Ready`), which `WellOrderedIsSafe` discharges for any chain that runs
`validateUserExistence` first.

`OwnershipCheckNeverRefuses` shows a consequence of the code as written. The user that
`validateUserExistence` stores was looked up by the same path id that the ownership check then
compares against. Take a service whose `readById(id)` returns a user whose `_id` is `id`, and a
request that starts with `locals.user` empty. Then neither `validateUserEmailMatchesUserId` nor
`validatePatchEmail` ever refuses, in any chain. `ForeignOwnerStopsPatch` covers the opposite
case, a service that returns a record with a different `_id`.

## Model

| member | source | states |
|---|---|---|
| `UsersMiddleware.ValidateEmailUniqueness` | src/users/middleware/users.middleware.ts:8-15 | continues exactly when `getUserByEmail(body.email)` finds no user; otherwise responds `400 {error: "A user with the given email already exists"}` |
| `UsersMiddleware.UserExistenceStep` | src/users/middleware/users.middleware.ts:17-25 | continues exactly when `readById(params.userId)` finds a user, and then `locals.user` is that user with the body and path untouched; otherwise responds `404 {error: "User <userId> not found"}` and leaves the request unchanged |
| `RequestState.RequestContext.ValidateUserExistence` | src/users/middleware/users.middleware.ts:17-25 | writes only `locals.user`, and its outcome and new state are those of `UserExistenceStep` on the old request |
| `UsersMiddleware.ValidateUserEmailMatchesUserId` | src/users/middleware/users.middleware.ts:27-33 | with `locals.user` set, continues exactly when `locals.user._id == params.userId`; otherwise responds `400 {error: "Invalid email"}` |
| `UsersMiddleware.ValidatePatchEmail` | src/users/middleware/users.middleware.ts:36-44 | a falsy or absent `body.email` always continues, whatever `locals` holds; a truthy one gives exactly the outcome of the ownership check |
| `UsersMiddleware.PatchEmailContinuesIff` | src/users/middleware/users.middleware.ts:27-44 | `validatePatchEmail` continues if and only if the email is falsy or the stored user's `_id` equals the path id |
| `UsersMiddleware.ExtractUserIdStep` | src/users/middleware/users.middleware.ts:46-49 | always continues; afterwards `body.id` is the path id, every other body key and value is unchanged, and neither the path nor `locals.user` changes |
| `RequestState.RequestContext.ExtractUserId` | src/users/middleware/users.middleware.ts:46-49 | writes only the body, and its outcome and new body are those of `ExtractUserIdStep` on the old request |
| `UsersMiddleware.ExtractUserIdIdempotent` | src/users/middleware/users.middleware.ts:46-49 | extracting the id a second time changes nothing |
| `UsersMiddleware.UserCantChangePermission` | src/users/middleware/users.middleware.ts:51-57 | responds `400 {errors: ["User cannot changer permission flags"]}` exactly when the body has the key `permissionFlags` and its value is not strictly equal to the stored flags; otherwise continues; needs `locals.user` only when the key is present |
| `MiddlewareChain.Apply` | src/users/middleware/users.middleware.ts:8-57 | frame of each validator: only validateUserExistence changes `locals.user` (and only to a user when it continues), only extractUserId changes the body, none changes the path, the other four change nothing; every response is a 400 or a 404 |
| `RequestState.RequestContext.Validate` | src/users/middleware/users.middleware.ts:8-57 | running one validator on the mutable request gives the outcome and new state that `Apply` gives |
| `MiddlewareChain.Run` | src/users/middleware/users.middleware.ts:8-57 | a chain either reaches the controller or halts at an index inside the chain with status 400 or 404; the path id never changes |
| `RequestState.RequestContext.RunChain` | src/users/middleware/users.middleware.ts:8-57 | the loop over a route's validators on the mutable request ends with the verdict and the request state that `Run` gives |
| `MiddlewareChain.WellOrderedIsSafe` | src/users/middleware/users.middleware.ts:17-57 | if every validator that reads `locals.user` comes after validateUserExistence, then no validator the chain reaches finds the slot missing, on any request and any service |
| `MiddlewareChain.RunAppend` | src/users/middleware/users.middleware.ts:8-57 | running `a + b` runs `a`, and then `b` only if every validator of `a` called `next()`; a response in `a` is the response of the whole chain |
| `MiddlewareChain.HaltsAtFirstResponse` | src/users/middleware/users.middleware.ts:8-57 | a chain that halts at index k had every validator before k continue, and validator k gave exactly the reported response |
| `MiddlewareChain.ReachedMeansAllContinued` | src/users/middleware/users.middleware.ts:8-57 | a chain that reaches the controller had every validator call `next()` |
| `MiddlewareChain.RunFrame` | src/users/middleware/users.middleware.ts:17-57 | over a whole chain, `locals.user` changes only if validateUserExistence is in it, the body only if extractUserId is in it, and the path id never |
| `MiddlewareChain.OwnershipAfterExistence` | src/users/middleware/users.middleware.ts:17-33 | for the two-validator chain validateUserExistence then validateUserEmailMatchesUserId, with a service whose `readById(id)` returns a user with `_id == id`: the chain answers 404 or reaches the controller |
| `MiddlewareChain.OwnershipCheckNeverRefuses` | src/users/middleware/users.middleware.ts:17-44 | for any chain, with a service whose `readById(id)` returns a user with `_id == id` and a request whose `locals.user` is empty or already has the path id as `_id`: a chain never halts at validateUserEmailMatchesUserId or validatePatchEmail |
| `MiddlewareChain.UnknownUserStopsChain` | src/users/middleware/users.middleware.ts:17-25 | an unknown path id is answered 404 by a leading validateUserExistence, with the request unchanged and nothing after it run |
| `MiddlewareChain.ForeignOwnerStopsPatch` | src/users/middleware/users.middleware.ts:17-44 | a body with a truthy email, on a path whose stored user has another `_id`, halts at the second validator with `400 {error: "Invalid email"}` before the controller, with `locals.user` set to the stored user |

## Left out

- `src/app.ts` as a whole: dotenv loading, server creation and `listen`, the JSON, CORS and
  helmet middleware, and the winston logging setup. These are bootstrap and I/O over libraries.
- `src/users/users.routes.config.ts` is not part of this model. So a route's validator list is
  any sequence, and `WellOrdered` states the ordering that routes must follow.
- The user service's internals. `getUserByEmail` and `readById` are lookups given as maps. Their
  failure path (a rejected promise, an unhandled error and a 500) is not modelled.
- `async`/`await` and the un-awaited call on line 40. Validators are modelled as synchronous
  steps.
- Debug logging (lines 5 and 38).
- The `TypeError` thrown when a validator reads an unset `locals.user`. It is a precondition
  (`Ready`) rather than an outcome.
- Numbers are integers. `NaN` and fractions are not modelled. A fractional `permissionFlags`
  in the body would be refused in the source as any other mismatch is.
- The body is a JSON object. Top-level JSON arrays, and properties inherited through the prototype
  chain (which `in` and property reads would also see), are not modelled.
- `params.userId` is assumed to be a string, as it is on any route that declares `:userId`.
  On a route without it, the validators that read it (validateUserExistence,
  validateUserEmailMatchesUserId, validatePatchEmail and extractUserId) would see `undefined`.
  That case is not modelled.
- The number of `readById` calls is not counted as a separate quantity. Only
  validateUserExistence performs that lookup, once for each time the chain reaches it.
