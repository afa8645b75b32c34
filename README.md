# Accounts service with a header-based authorization gate — Dafny model

This project models the request path of the UltimateKotlinWorkshop accounts service:

- **User directory and authorization gate** (`Security`): a fixed directory of two users,
  `"admin"` and `"customer"`, built with `associateBy`; the argument resolver that turns the
  optional `X-ultimate_username` header into a `User` or an `UnauthorizedException`; the
  exception handler that answers 401 with the fixed text
  "You are not authorized to access this page!".
- **Account store** (`AccountPersistence`): the `AccountJpa` row, the one-to-one mappings
  `toAccount` / `toAccountJpa`, and `AccountRepository` kept in memory as a class holding the
  rows in insertion order and the id sequence (initial value 1000, increment 1). The pure
  `Table` value and `Insert` function specify the class; `AccountRepository.Save` is proved
  against them.
- **Account service and controller** (`AccountWeb`): `readAccounts` (map `findAll` one to one),
  the `readAccount` stub (always null), `createAccount` (force id 0, save, map back), and the
  three handlers. Because every handler takes a `User`, dispatch is modelled as "resolve the
  header, then call the handler": `Serve` is the pure specification and
  `AccountController.Dispatch` is proved against it.

The stage copies of `Account.kt` are the same code at different stages: `readAccounts` is the
same expression in the four copies of `Account.kt` modelled here, `createAccount` is identical in
`ultimate_solution` and `solutions/ultimate_solution`, and only `solutions/ultimate_solution`
has `readAccount` and `getAccount`. The model holds each operation once; the table below cites
the copy each member's property is taken from.

Modules: `Wrappers` (Option, Result), `AccountModel` (`Account` and the `Long`/`Int` widths),
`Http` (status and body), `Security`, `AccountPersistence`, `AccountWeb`.

Modelling choices taken from the code:

- A save draws the sequence value first and inserts the row afterwards. A sequence past
  `Long.MAX_VALUE` fails before anything changes. An alias longer than the 255-character
  column fails at insert time, after the value was drawn, so that value is used up and the
  rows stay as they were.
- No exception handler covers store failures, so a refused save surfaces as HTTP 500, not as
  a client error.
- `readAccount` returns null, which Spring renders as 200 with an empty body, not 404.
- Dispatch decides from each handler's declared parameters whether the resolver runs. Every
  handler declares a `User` first, so every route is gated (`EveryHandlerIsGated`).
- `findAll` lists rows in insertion order. This is also increasing id order, and the store
  invariant `WellFormed` proves that.

## Model

| member | source | states |
|---|---|---|
| `Security.AssociateByName` | final_solution/src/main/kotlin/ultimate/kotlin/workshop/Security.kt:35-38 | the map's keys are exactly the users' names, and each name maps to a user of that name |
| `Security.DirectoryHoldsExactlyTwoUsers` | final_solution/src/main/kotlin/ultimate/kotlin/workshop/Security.kt:20-38 | the directory has exactly two entries, "admin" and "customer", each mapped to the user of that name |
| `Security.FindUser` | final_solution/src/main/kotlin/ultimate/kotlin/workshop/Security.kt:40 | a user is found iff the name is "admin" or "customer", and a found user has the requested name |
| `Security.WrongUsernameIsUnknown` | final_solution/src/main/kotlin/ultimate/kotlin/workshop/Security.kt:40 | "wrongUsername" finds no user |
| `Security.SupportsParameter` | final_solution/src/main/kotlin/ultimate/kotlin/workshop/Security.kt:48-49 | the resolver applies to a parameter iff its type is `User` |
| `Security.ResolveArgument` | final_solution/src/main/kotlin/ultimate/kotlin/workshop/Security.kt:51-54 | for any user service: success iff the header is present and the service finds its value; the resolved user is the one the service found |
| `Security.MissingHeaderNeverConsultsDirectory` | final_solution/src/main/kotlin/ultimate/kotlin/workshop/Security.kt:52 | a missing header is rejected with Unauthorized whatever the user service would answer |
| `Security.Resolve` | final_solution/src/main/kotlin/ultimate/kotlin/workshop/Security.kt:53 | with the fixed directory: success iff the header is present and is "admin" or "customer", and then the user is exactly that name |
| `Security.HandleUnauthorizedException` | final_solution/src/main/kotlin/ultimate/kotlin/workshop/Security.kt:63-65 | Unauthorized becomes status 401 with body "You are not authorized to access this page!" |
| `AccountPersistence.ToAccount` | final_solution/src/main/kotlin/ultimate/kotlin/workshop/AccountPersistence.kt:37 | the account has the row's id, alias and balance |
| `AccountPersistence.ToAccountJpa` | final_solution/src/main/kotlin/ultimate/kotlin/workshop/AccountPersistence.kt:38 | the row has the account's id, alias and balance |
| `AccountPersistence.ToAccountAfterToAccountJpa` | final_solution/src/main/kotlin/ultimate/kotlin/workshop/AccountPersistence.kt:37-38 | mapping an account to a row and back gives the same account |
| `AccountPersistence.ToAccountJpaAfterToAccount` | solutions/stage4/src/main/kotlin/ultimate/kotlin/workshop/Account.kt:61-62 | mapping a row to an account and back gives the same row |
| `AccountPersistence.ToAccounts` | solutions/stage4/src/main/kotlin/ultimate/kotlin/workshop/Account.kt:42 | the list has as many accounts as there are rows, and the i-th account maps back to the i-th row (order and length kept) |
| `AccountPersistence.ToAccountsAppend` | ultimate_solution/src/main/kotlin/ultimate/kotlin/workshop/Account.kt:19 | mapping rows with one row appended gives the old list with that row's account appended |
| `AccountPersistence.EmptyTableIsWellFormed` | final_solution/src/main/kotlin/ultimate/kotlin/workshop/AccountPersistence.kt:21-23 | a fresh store holds nothing, its sequence starts at 1000, and it satisfies the store invariant |
| `AccountPersistence.Insert` | final_solution/src/main/kotlin/ultimate/kotlin/workshop/AccountPersistence.kt:17-34 | saving a new entity succeeds iff the sequence has a value left and the alias fits 255 characters; on success the row gets the sequence's value as id and is appended; on failure the rows are unchanged; the sequence advances whenever a value was drawn |
| `AccountPersistence.InsertPreservesWellFormed` | final_solution/src/main/kotlin/ultimate/kotlin/workshop/AccountPersistence.kt:17-31 | a save keeps the invariant: ids come from the sequence, increase in insertion order, and no alias exceeds 255 characters |
| `AccountPersistence.InsertedIdIsFresh` | final_solution/src/main/kotlin/ultimate/kotlin/workshop/AccountPersistence.kt:26-29 | a saved id differs from every id already stored |
| `AccountPersistence.InsertKeepsStoredRows` | final_solution/src/main/kotlin/ultimate/kotlin/workshop/AccountPersistence.kt:28 | a save never changes a stored row, so an assigned id never changes |
| `AccountPersistence.FirstIdIsInitialValue` | final_solution/src/main/kotlin/ultimate/kotlin/workshop/AccountPersistence.kt:22 | the first account saved into a fresh store gets id 1000 |
| `AccountPersistence.SuccessiveIdsIncrementByOne` | final_solution/src/main/kotlin/ultimate/kotlin/workshop/AccountPersistence.kt:23 | of two successive successful saves, the second id is the first plus 1 |
| `AccountPersistence.AccountRepository.constructor` | final_solution/src/main/kotlin/ultimate/kotlin/workshop/AccountPersistence.kt:21-23 | a new repository is empty, its sequence is at 1000, and it is valid |
| `AccountPersistence.AccountRepository.FindAll` | final_solution/src/main/kotlin/ultimate/kotlin/workshop/AccountPersistence.kt:41 | the stored rows in insertion order, whose ids strictly increase and whose aliases fit the column |
| `AccountPersistence.AccountRepository.Save` | final_solution/src/main/kotlin/ultimate/kotlin/workshop/AccountPersistence.kt:40-41 | updates the rows and sequence exactly as `Insert` specifies, returns what it returns, and keeps the store valid |
| `AccountWeb.AccountsOfEmptyTable` | solutions/ultimate_solution/src/test/kotlin/ultimate/kotlin/workshop/AccountTest.kt:65-73 | listing an empty store gives the empty list |
| `AccountWeb.AccountsMirrorRows` | final_solution/src/main/kotlin/ultimate/kotlin/workshop/Account.kt:25 | the i-th listed account has the i-th row's id, alias and balance |
| `AccountWeb.Create` | solutions/ultimate_solution/src/main/kotlin/ultimate/kotlin/workshop/Account.kt:24 | creation succeeds iff the store can save the alias; the result equals the input with the store's next id; the listing afterwards is the old listing plus the result; a failed creation leaves the listing unchanged |
| `AccountWeb.CreateIgnoresIncomingId` | ultimate_solution/src/main/kotlin/ultimate/kotlin/workshop/Account.kt:20 | the outcome of creation does not depend on the id the caller sent |
| `AccountWeb.CreatePreservesWellFormed` | solutions/ultimate_solution/src/main/kotlin/ultimate/kotlin/workshop/Account.kt:24 | creation keeps the store invariant |
| `AccountWeb.CreateOnEmptyStore` | solutions/ultimate_solution/src/test/kotlin/ultimate/kotlin/workshop/AccountTest.kt:106-116 | creating in a fresh store returns the input with id 1000, and the store then holds exactly that row |
| `AccountWeb.SuccessiveCreatesGetDistinctIds` | ultimate_solution/src/main/kotlin/ultimate/kotlin/workshop/Account.kt:20 | two successive creations get distinct ids, the second being the first plus 1 |
| `AccountWeb.HandlerParameters` | solutions/ultimate_solution/src/main/kotlin/ultimate/kotlin/workshop/Account.kt:33-40 | each handler's parameter list, whose first entry is always the `User` |
| `AccountWeb.EveryHandlerIsGated` | solutions/ultimate_solution/src/main/kotlin/ultimate/kotlin/workshop/Account.kt:34-40 | every route is gated: the handler's first parameter is one the resolver supplies, and no other parameter is |
| `AccountWeb.RenderOptional` | solutions/ultimate_solution/src/main/kotlin/ultimate/kotlin/workshop/Account.kt:36-37 | an optional account is answered with 200; the body is that account when present and empty when absent |
| `AccountWeb.Handle` | solutions/ultimate_solution/src/main/kotlin/ultimate/kotlin/workshop/Account.kt:33-40 | listing answers 200 with the store's accounts, the lookup answers 200 with no body, and neither changes the store; posting leaves the store as `Create` does and answers 200 with the created account, or 500 when the store refuses |
| `AccountWeb.Serve` | ultimate_solution/src/main/kotlin/ultimate/kotlin/workshop/Account.kt:29-33 | the resolver runs when the handler declares a `User`; when it rejects, the answer is 401 and the store is unchanged |
| `AccountWeb.UnauthorizedRequestIsRejected` | solutions/ultimate_solution/src/test/kotlin/ultimate/kotlin/workshop/AccountTest.kt:37-53 | a missing or unknown username gives exactly 401 with the fixed message, on every route, with the store untouched |
| `AccountWeb.KnownUserListsAccounts` | solutions/ultimate_solution/src/test/kotlin/ultimate/kotlin/workshop/AccountTest.kt:55-63 | "admin" or "customer" listing the accounts gets 200 with every stored account, store unchanged |
| `AccountWeb.CustomerListsEmptyStore` | solutions/stage4/src/test/kotlin/ultimate/kotlin/workshop/AccountTest.kt:28-38 | "customer" listing a fresh store gets 200 and the empty list |
| `AccountWeb.ListingIsIdempotent` | final_solution/src/main/kotlin/ultimate/kotlin/workshop/Account.kt:25 | listing leaves the store unchanged, so a repeated listing gives the same answer |
| `AccountWeb.ListingShowsSavedAccount` | solutions/stage4/src/test/kotlin/ultimate/kotlin/workshop/AccountTest.kt:40-51 | after one account is saved into a fresh store, listing gives 200 and exactly that account |
| `AccountWeb.LookupIsStub` | solutions/ultimate_solution/src/main/kotlin/ultimate/kotlin/workshop/Account.kt:21-23 | an authorized lookup answers 200 with no body for every id and store, and changes nothing |
| `AccountWeb.PostThenList` | ultimate_solution/src/main/kotlin/ultimate/kotlin/workshop/Account.kt:19-20 | an authorized post returns the body with the store's next id, and the next listing is the earlier accounts followed by it |
| `AccountWeb.PostAliasIntoEmptyStore` | solutions/ultimate_solution/src/test/kotlin/ultimate/kotlin/workshop/AccountTest.kt:105-116 | posting {"id":0,"alias":"alias","balance":42} as "customer" into a fresh store answers 200 with id 1000 and stores exactly that row |
| `AccountWeb.RefusedPostIsServerError` | final_solution/src/main/kotlin/ultimate/kotlin/workshop/AccountPersistence.kt:31 | an authorized post with an alias over 255 characters answers 500 and stores nothing |
| `AccountWeb.AccountService.ReadAccounts` | solutions/stage4/src/main/kotlin/ultimate/kotlin/workshop/Account.kt:42 | returns the store's accounts as `Accounts` specifies, without changing the store |
| `AccountWeb.AccountService.ReadAccount` | solutions/ultimate_solution/src/main/kotlin/ultimate/kotlin/workshop/Account.kt:21-23 | returns absent for every id |
| `AccountWeb.AccountService.CreateAccount` | solutions/ultimate_solution/src/main/kotlin/ultimate/kotlin/workshop/Account.kt:24 | changes the repository and returns exactly as `Create` specifies, keeping it valid |
| `AccountWeb.AccountController.GetAccounts` | final_solution/src/main/kotlin/ultimate/kotlin/workshop/Account.kt:34-35 | given a resolved user, returns the store's accounts without changing the store |
| `AccountWeb.AccountController.GetAccount` | solutions/ultimate_solution/src/main/kotlin/ultimate/kotlin/workshop/Account.kt:36-37 | given a resolved user, returns absent |
| `AccountWeb.AccountController.PostAccount` | ultimate_solution/src/main/kotlin/ultimate/kotlin/workshop/Account.kt:32-33 | given a resolved user, creates as `Create` specifies |
| `AccountWeb.AccountController.Dispatch` | solutions/stage4/src/main/kotlin/ultimate/kotlin/workshop/Account.kt:29-30 | a request's new store state and response are exactly those `Serve` specifies; a rejected request leaves the repository unchanged and answers 401 |

## Left out

- `AccountPersistence.AccountRepository.Save` requires an entity with id 0. Every caller shown here passes id 0: `createAccount` and the tests. The merge path that JPA `save` takes for a non-zero id is not modelled.
- Spring wiring is not modelled: `UltimateWebMvcConfig`, registration of the resolver and the controller advice, and dependency injection. The model composes the resolver with the handlers explicitly.
- The model has no JSON (de)serialisation, HTTP transport, content negotiation, or response headers. A 500 response's body is only named; Spring's default error body is not modelled.
- The header is given as the value of `X-ultimate_username`, or its absence. Case-insensitive header names and repeated headers are not modelled.
- Spring's own 404/405 answers are not modelled. They apply to routes that a stage's controller lacks: `final_solution` and `stage4` have only `GET /accounts`, and `ultimate_solution` has no `GET /accounts/{id}`.
- The id generator in `stage4` uses Hibernate's default sequence settings, which the repository does not define. The model uses the final solution's generator: initial value 1000, increment 1.
- Transactions, flushes and the real database are not modelled. The order `findAll` returns is taken to be insertion order.
- Concurrency is not modelled: saves are sequential.
- Alias length is counted in Unicode characters. Java counts UTF-16 code units, so an alias with characters outside the Basic Multilingual Plane can count differently.
- `PingController`, `WorkshopApplication.main`, the test helper `test_infra.kt` and the stage-2 in-memory service are not part of this model.
