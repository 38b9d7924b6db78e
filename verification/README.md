# Verified model of the Kayan backend

A Dafny model of the backend's stateful services and of its three algorithmic helpers.
PostgreSQL tables are sequences and maps; a service object is a class whose fields are
its tables; a transaction is a snapshot that an error restores. `dafny verify
dfyconfig.toml` checks the whole project.

Each stateful service is written twice. Once as a state machine: `Exec`, `Step` and
`Run` are functions from tables to tables, and what the service promises is proved about
every run of them. Once as the service runs: a class with methods that read and write
row by row, each proved to do exactly what the function says. What a step does to a row is
besides stated call by call in the rows' own terms.

| files | what they model |
|---|---|
| `Shop`, `ShopCalls`, `ShopRuns`, `ShopService` | catalogue, cart and orders: the line-by-line stock check against aggregate demand, what each call promises, the stock ledger over whole runs, checkout, the service methods |
| `ShopConcurrency`, `ShopProgress` | order and checkout transactions interleaved statement by statement under row locks: every interleaving is serializable, the stock ledger holds over each, and orders that keep out of each other's way all commit |
| `Faults` | the fault status graph, its recorded history, ratings of finished faults |
| `OrderRatings` | ratings of ordered products, and when a rated order stays delivered |
| `Tokens`, `TokenRuns`, `AuthStore`, `AuthService` | access and refresh tokens over every interleaving of minting, rotating, revoking and outdating statements; how long each is accepted and what the columns hold; the store with PostgreSQL and an unreliable Redis mirror; accounts under their unique keys |
| `Otp`, `OtpRuns` | the window in which wrong one-time codes are counted; runs of sending and checking codes |
| `Chat` | conversations, last-message pointers, unread counts |
| `FkExpansion` | expansion of foreign keys in response payloads, batched against naive |
| `Like`, `Queries`, `Sorting`, `Listings`, `Paging` | LIKE escaping against a LIKE matcher, query builders as a compiler, the sort orders and when separate page requests agree, the listing methods, page arithmetic |
| `Grouping`, `Assets`, `MarketImages` | grouping in one pass, replacing and attaching images and files |
| `Scanner` | bracket scanners against a grammar of bracketed text |
| `Sanitize` | the log sanitizer: size bound, redaction, independence of secrets |
| `Seqs`, `Numbers`, `Wrappers` | filtering, ordering and folding of sequences, small arithmetic, `Option`, `Result` |

## Assumptions

- Column defaults: `received` for a new order or fault, 0 for `token_version`, false for
  `is_admin` (db/migrations/0006_add_is_admin.sql:1).
- Request validation has run: quantities are at least 1, amounts at least 0, page and
  limit at least 1, offset at least 0 (src/kayan/kayan.dto.ts:87-111, 147-154).
- Fresh `jti` values and identity values never repeat; a signature check passes exactly
  for tokens that were issued.
- Every SQL statement is atomic. Each service call is one step, except where statements
  of several calls interleave: the order and checkout transactions in `ShopConcurrency`
  and login, reset and refresh in `Tokens`.
- Prices are reals. The clock is an integer that never runs backwards.
- The driver hands out BIGINT columns as their decimal text and TIMESTAMPTZ columns as
  `Date` objects, since no type parser is set.
- Hashing of codes is free of collisions, and a password matches the hash made of it.
- Case folding maps characters to characters and leaves `%`, `_` and `\` alone; value
  comparison, a total preorder, and full-text search are parameters of the query semantics.

## Where the code and its words differ

The model follows the code.

- After too many wrong codes the message says that the code is invalidated
  (src/auth/otp-sender/console-otp.sender.ts:79-81). Only the counter is cleared: in every
  run a code is accepted exactly when it is the one last sent and has not expired,
  whatever was checked before (`OtpRuns.AcceptedIff`, with a lockout followed by an accepted
  code in `OtpRuns.RightAfterLockout`). Nothing ever sets `used_at`, so this holds of used
  codes too.
- A cart row may grow past the stock, because adding to a cart checks only the increment
  (`ShopRuns.AcceptedCartMayNotCheckOut`).
- The owner exception for a product that is no longer available compares a column's text
  with a number by `===`, so it never applies: a conversation about a product may start
  exactly when the product is available, whoever owns it (`Chat.ProductAcceptedIff`,
  `Chat.OwnerIsRefused`).
- The administration's user list has no tie-break: its order is settled exactly when no
  two users share a creation time (`Sorting.UserListSettledIff`).
- A product's images are replaced before its files, so an update that lists a former file
  as an image is refused, even if the same update would take it from the files
  (`Assets.FormerFileIsRefusedAsImage`, `Assets.SwapIsRefused`). A former image may become a
  file (`Assets.ChangingSidesIff`, `Assets.MoveToFilesGoesThrough`).
- A fault image listed twice passes validation and is then refused by the unique key
  (`Assets.SyncFaultIff`).
- The rule table of the expansion is a plain object, so a payload key such as
  `constructor` finds an inherited property, is treated as a foreign key of no entity
  type, and loses its value (`FkExpansion.ConstructorIsLost`). The expansion agrees with its
  declared rules exactly when every inherited key that reaches the output holds null
  (`FkExpansion.AsDeclaredIff`).
- The expansion takes a `Date` for an object and finds no entries in it, so every date of a
  response that is not cast to text in SQL comes back as `{}`: the timestamps of the rows that
  services answer from `RETURNING *`, for one (src/kayan/kayan.service.ts:611-620,
  `FkExpansion.DateIsLost`). Only dates within fetched records survive
  (`FkExpansion.DatesComeFromRecords`); a payload without declared foreign keys comes back
  unchanged exactly when its inherited keys hold null and it has no date
  (`FkExpansion.UnchangedIff`). The log sanitizer does the same to dates
  (`Sanitize.PlainUnchangedIff`).
- The catalogue sorts by `created_at` without a table prefix, which names the column of the
  result: the text of the time (src/kayan/kayan.service.ts:119, 139-148,
  `Listings.ListProducts`).
- A password reset mints new tokens and outdates no old ones
  (`AuthService.ResetOutdatesNothing`).
- A rated order need not stay delivered, because an administrator may set any status from
  any status (`OrderRatings.RatedOrderStaysDeliveredIff`, `OrderRatings.RatedOrderUndelivered`).

## Model

| member | source | states |
|---|---|---|
| Shop.PlacedIffFulfillable | src/kayan/kayan.service.ts:1249-1265 | the line-by-line check against running stock succeeds exactly when every product is live and active and its total over all lines fits its stock; success lowers each stock by that total |
| Shop.LineOrderImmaterial | src/kayan/kayan.service.ts:1249-1265 | any reordering of the same lines gives the same verdict and the same stock |
| Shop.DemandOfPermutation | src/kayan/kayan.service.ts:1249-1265 | a product's total over the lines does not depend on their order |
| ShopRuns.RefusedCallChangesNothing | src/database/database.service.ts:42-55 | a call that fails leaves products, cart, orders, lines and history as they were |
| ShopRuns.ExecKeepsValid | src/kayan/kayan.service.ts:160-421 | every call keeps stock within 0 and the column's maximum, at most one cart row per user and product, and every order's history from `received` to its current status |
| ShopRuns.RunKeepsValid | src/kayan/kayan.service.ts:160-421 | so does every run of calls |
| ShopRuns.StatusKeepsValid | src/kayan/kayan.service.ts:363-373 | a status change and its history row keep the recorded trail of every order |
| ShopRuns.StockLedger | src/kayan/kayan.service.ts:174-194 | from the moment an administrator sets an amount, what is left plus every line ordered since equals it, whatever calls follow, and is never negative |
| ShopRuns.RunBalances | src/kayan/kayan.service.ts:1237-1281 | while no amount is set, stock plus everything ordered is constant over a run and no order line disappears |
| ShopRuns.CheckoutSucceedsIff | src/kayan/kayan.service.ts:276-294 | a checkout succeeds exactly when the cart is not empty and each of its rows is in stock on its own |
| ShopRuns.CheckoutMakesLines | src/kayan/kayan.service.ts:276-294 | a checkout turns the user's cart rows into exactly the order's lines, in order, at current prices |
| ShopRuns.CheckoutEmptiesCart | src/kayan/kayan.service.ts:291-291 | it empties that user's cart and leaves every other user's cart alone |
| ShopRuns.AcceptedCartMayNotCheckOut | src/kayan/kayan.service.ts:247-257 | two accepted additions can make a cart that is refused at checkout |
| ShopCalls.CreateOrderDoes | src/kayan/kayan.service.ts:1237-1281 | success exactly if all lines together can be served; then the order row, its lines at current prices, the lowered stock and the first history row; otherwise the error of the first line that the stock cannot serve together with those before it |
| ShopCalls.CheckoutCartDoes | src/kayan/kayan.service.ts:276-294 | the same with the user's cart rows as lines, and that cart emptied |
| ShopCalls.CancelOrderDoes | src/kayan/kayan.service.ts:363-373 | exactly the owner cancels, exactly while the order is `received`; the row, its date and its history afterwards |
| ShopCalls.SetOrderStatusDoes | src/kayan/kayan.service.ts:421-426 | any status of any order, recorded in the administrator's name |
| ShopCalls.AddCartItemDoes | src/kayan/kayan.service.ts:247-257 | both refusals, a new row for a new product, and the sum in the row that is there |
| ShopCalls.UpdateCartItemDoes | src/kayan/kayan.service.ts:259-268 | the user's own row takes the new quantity if the product is on sale in it |
| ShopCalls.DeleteCartItemDoes | src/kayan/kayan.service.ts:270-274 | exactly that row goes |
| ShopCalls.CreateProductDoes | src/kayan/kayan.service.ts:160-172 | amount and price as given, on sale |
| ShopCalls.UpdateProductDoes | src/kayan/kayan.service.ts:174-194 | given values are taken, the others stay, unless the product is deleted |
| ShopCalls.DeleteProductDoes | src/kayan/kayan.service.ts:196-203 | a deletion is a mark |
| ShopService.KayanService.CreateOrderRecord | src/kayan/kayan.service.ts:1237-1281 | the loop over the lines writes what placing the order in one piece writes, and stops with the error of the first refused line |
| ShopService.KayanService.CreateOrder | src/kayan/kayan.service.ts:205-208 | the whole new state and result of an order, everything restored on an error |
| ShopService.KayanService.CheckoutCart | src/kayan/kayan.service.ts:276-294 | the whole new state and result of a checkout |
| ShopService.KayanService.AssertCartProductState | src/kayan/kayan.service.ts:1349-1356 | passes exactly what is on sale in the quantity asked for, and otherwise says which of the two is wanting |
| ShopService.KayanService.AddCartItem | src/kayan/kayan.service.ts:247-257 | this and each other handler of the class does what its step of the state machine does, so the results over runs hold of the service |
| ShopService.OneMoreLine | src/kayan/kayan.service.ts:1249-1265 | one turn of the loop extends the run over the lines, or fixes its error |
| ShopService.PricesStay | src/kayan/kayan.service.ts:1249-1265 | each line's unit price is the price before the order |
| ShopConcurrency.Serializable | src/kayan/kayan.service.ts:1237-1281 | for every interleaving of statements, waits and aborts, the committed tables are those of the committed transactions run one after another in commit order, and no amount is negative |
| ShopConcurrency.StepKeepsInv | src/kayan/kayan.service.ts:1249-1265 | every single statement keeps the lock invariant: what a transaction has read and written is protected by its locks |
| ShopConcurrency.TxnFrame | src/kayan/kayan.service.ts:1251-1253 | steps of others cannot disturb rows that a transaction has locked |
| ShopConcurrency.CommitIsSerial | src/database/database.service.ts:42-55 | committing equals running the whole transaction alone on the tables committed before |
| ShopConcurrency.CallKeepsInv | src/kayan/kayan.service.ts:174-203 | single-statement calls that no lock stops extend the serial run |
| ShopConcurrency.ReleaseKeepsInv | src/database/database.service.ts:42-55 | an abort at any point leaves no trace |
| ShopConcurrency.InterleavingBalances | src/kayan/kayan.service.ts:1237-1281 | over any interleaving in which nobody sets the amount, committed stock plus all that was ever ordered is constant and no order line disappears |
| ShopConcurrency.InterleavedStockLedger | src/kayan/kayan.service.ts:174-194 | from the moment an administrator's call sets an amount, whatever transactions are under way, what is left plus every line committed since equals it, for every interleaving, and is never negative |
| ShopConcurrency.CommitPlaces | src/database/database.service.ts:42-55 | a commit writes what placing the order in one piece writes on the tables committed by then |
| ShopProgress.OrderAmongOthers | src/kayan/kayan.service.ts:205-208 | from any reachable state in which no other transaction holds one of its products, the statements of an order do to the committed database what the call does in one piece, also when it throws, and the other transactions and their locks are still there |
| ShopProgress.AloneMatchesCall | src/kayan/kayan.service.ts:205-208 | with nobody else under way, the statements of an order are the call |
| ShopProgress.CheckoutAmongOthers | src/kayan/kayan.service.ts:276-294 | the same for a checkout, unless the user has another checkout under way |
| ShopProgress.AloneMatchesCheckout | src/kayan/kayan.service.ts:276-294 | with nobody else under way, the statements of a checkout are the call |
| ShopProgress.UndisturbedOrder | src/kayan/kayan.service.ts:1237-1281 | an order that can be fulfilled when it begins is committed however its statements are interleaved with orders, checkouts, aborts and calls that keep away from its products |
| ShopProgress.ShuffledOrdersCommit | src/database/database.service.ts:42-55 | two orders of different products are both committed by every shuffle of their statements |
| ShopProgress.OverlappingOrdersCommit | src/kayan/kayan.service.ts:205-208 | from any valid tables that can serve each, two buyers of different products whose transactions overlap, the first to begin committing last, are both served |
| ShopProgress.CallAmongOthers | src/kayan/kayan.service.ts:174-203 | a call of one statement waits exactly for a lock on its product or cart, and otherwise takes effect at once |
| ShopProgress.AbortAmongOthers | src/database/database.service.ts:42-55 | an abort takes the transaction and its locks away and nothing else |
| Faults.HistoryIsPath | src/kayan/kayan.service.ts:1393-1406 | in every run, a fault's history without its repetitions is a beginning of received, assigned, on the way, in progress, finished, or a beginning of the first four followed by cancelled; it ends at the fault's status and changes at most four times |
| Faults.FinishedWentAllTheWay | src/kayan/kayan.service.ts:1393-1406 | in every run a finished fault has been through all five in that order, and a cancelled one was never finished |
| Faults.StutteringIff | src/kayan/kayan.service.ts:1393-1406 | the graph allows exactly these itineraries, with repetitions |
| Faults.EveryPathHappens | src/kayan/kayan.service.ts:602-609 | conversely every such itinerary, with any repetitions, is the history of a fault in some run |
| Faults.AtMostFourChanges | src/kayan/kayan.service.ts:1393-1406 | a path of the graph has at most four real changes |
| Faults.ExecKeepsValid | src/kayan/kayan.service.ts:428-609 | every call keeps histories, cancellation dates and ratings consistent with the statuses |
| Faults.RunExtends | src/kayan/kayan.service.ts:428-609 | history and ratings are only appended to, `finished` and `cancelled` are absorbing, and a fault's details freeze when processing starts |
| Faults.RatedFaultsStayFinished | src/kayan/kayan.service.ts:1056-1073 | every rated fault was rated by its owner, once, and is finished in every later state |
| Faults.CancelledAtMeansOwnerCancelled | src/kayan/kayan.service.ts:502-509 | a cancellation date is there only after the owner's cancellation, and then for good |
| Faults.CreateFaultDoes | src/kayan/kayan.service.ts:428-440 | the new row and its history, or nothing but a drawn id |
| Faults.UpdateFaultDoes | src/kayan/kayan.service.ts:442-459 | who may edit and when, and each of the four fields afterwards |
| Faults.CancelFaultDoes | src/kayan/kayan.service.ts:502-509 | who may cancel and when, and the row, date and history afterwards |
| Faults.SetFaultStatusDoes | src/kayan/kayan.service.ts:602-609 | exactly which status may follow which, and the row and history afterwards |
| Faults.RateFaultDoes | src/kayan/kayan.service.ts:1056-1073 | the four refusals in order, and the rating as given |
| Faults.FaultService.CreateFault | src/kayan/kayan.service.ts:428-440 | a fault starts `received` with one history row and its images, a refused image restores everything; this and each other handler of the class does what its step of the state machine does |
| Faults.FaultService.UpdateFault | src/kayan/kayan.service.ts:442-459 | the owner changes given fields and images, only while `received`, all or nothing |
| OrderRatings.RatingsAreEarned | src/kayan/kayan.service.ts:1075-1089 | in every run, every rating was given by the order's owner for a product of that order, the order was delivered before, and none was given twice |
| OrderRatings.RatedOrderStaysDeliveredIff | src/kayan/kayan.service.ts:421-426 | a delivered order is delivered throughout a run exactly when no administrator's call sets it to another status |
| OrderRatings.RatedOrderUndelivered | src/kayan/kayan.service.ts:421-426 | a reachable state in which a rated order is no longer delivered |
| OrderRatings.OrderFrame | src/kayan/kayan.service.ts:363-426 | every call keeps an order's owner and lines; only that one takes it out of `delivered` |
| OrderRatings.RateDoes | src/kayan/kayan.service.ts:1075-1089 | the five refusals in order, and the rating as given |
| OrderRatings.ProductRatings.AssertRateableProduct | src/kayan/kayan.service.ts:1075-1089 | passes exactly the owner of a delivered order that has the product, and otherwise says the first thing wanting |
| Tokens.AcceptedClaimIsCurrent | src/auth/jwt.strategy.ts:31-55 | in every run, an issued token that is accepted carries the current value of `is_admin`, although that column is not read |
| Tokens.OutdatedForever | src/admin/admin.service.ts:263-282 | after a promote, demote or deletion nothing read before it is ever accepted again, not even what a request under way goes on to issue |
| Tokens.OneLiveTokenPerFamily | src/auth/auth.service.ts:266-296 | a login family never has two live refresh tokens, however consume, read and save statements interleave |
| Tokens.ConsumedOnce | src/auth/auth-state.store.ts:151-185 | a token id once consumed or revoked is never accepted again |
| Tokens.RunKeepsInv | src/auth/auth.service.ts:118-310 | every statement keeps claims no newer than their user row, equal to it at equal versions, and each family in one place |
| Tokens.StepKeepsClaimsDated | src/admin/admin.service.ts:169-235 | the writers change `is_admin` only together with the version |
| Tokens.SpentStaysSpent | src/auth/auth-state.store.ts:151-185 | a token id that is gone stays gone |
| TokenRuns.ColumnsAreWritten | src/admin/admin.service.ts:169-282 | after any run, an account's flag is that of the last promotion or demotion that found it live, its status the last one set, its version higher by one for each promotion, demotion and deletion, and it is deleted exactly if some statement deleted it |
| TokenRuns.Registered | src/auth/auth.service.ts:143-163 | a new account is active, without rights and at version 0, with its first tokens |
| TokenRuns.PromotedLogin | src/admin/admin.service.ts:181-189 | a login right after a promotion is issued claims with `is_admin`, and they are accepted as such |
| TokenRuns.AcceptedUntilOutdated | src/auth/jwt.strategy.ts:31-55 | claims read from a live account are accepted after a run exactly if no promotion, demotion or deletion of it took effect |
| TokenRuns.UsableUntilSpent | src/auth/auth-state.store.ts:151-185 | a refresh token's row is usable after a run exactly if it was not used or revoked and its time has not passed |
| TokenRuns.RefreshAcceptedIff | src/auth/auth.service.ts:266-296 | a refresh token is accepted after a run exactly if besides nothing outdated its account and the account is active |
| AuthService.AccountService.GenerateTokens | src/auth/auth.service.ts:330-359 | signs both tokens from one set of claims and saves the refresh token's row |
| AuthService.AccountService.VerifyRegistrationOtp | src/auth/auth.service.ts:118-167 | succeeds exactly if the check of module OtpRuns accepts the code, the registration still waits, and no live account has the address and no account at all the phone; then the account has the waiting password and phone, the registration is gone and one registration step is done; otherwise only the count of wrong codes moves |
| AuthService.AccountService.Login | src/auth/auth.service.ts:169-194 | succeeds exactly if the address has an active account whose hash the password matches, and is a read step and a save step |
| AuthService.AccountService.ResetPassword | src/auth/auth.service.ts:214-264 | succeeds exactly with equal passwords, a code that the check of module OtpRuns accepts and an active account of the address; then the stored hash matches the new password, and it mints like a login |
| AuthService.InsertKeepsKeys | db/migrations/0016_kayan_v2_core.sql:3-6 | an insert that no unique key refuses leaves one live account per address and one account per phone |
| AuthService.ChangeKeepsKeys | src/users/users.service.ts:277-293 | so does any change of a row that does not bring a deleted account back |
| AuthService.TakenIff | db/migrations/0016_kayan_v2_core.sql:3-6 | a row is refused exactly if a live account has its address, up to case, or any account, deleted or not, its phone |
| AuthService.ResetOutdatesNothing | src/auth/auth.service.ts:214-264 | every claim and every earlier refresh token is accepted after a reset exactly if it was before |
| AuthService.AccountService.Refresh | src/auth/auth.service.ts:266-296 | succeeds exactly when the token is accepted, and is a consume, a read and a save step |
| AuthService.AccountService.Logout | src/auth/auth.service.ts:298-310 | revokes a token that verifies and ignores any other |
| AuthService.AccountService.PromoteAdmin | src/admin/admin.service.ts:169-199 | sets the flag to true and raises the version by one, in no other column and no other row, with its errors |
| AuthService.AccountService.DemoteAdmin | src/admin/admin.service.ts:201-235 | sets the flag to false and raises the version by one; nobody demotes themselves |
| AuthService.AccountService.Delete | src/users/users.service.ts:277-293 | marks the account deleted and raises the version |
| AuthService.AccountService.UpdateUserStatus | src/admin/admin.service.ts:237-261 | changes the status and no token |
| AuthService.AccountService.ValidateToken | src/auth/jwt.strategy.ts:31-55 | accepts by version alone; under the token invariant the claim it returns is the column's value |
| AuthService.RefreshInOnePiece | src/auth/auth.service.ts:266-296 | the three steps of an uninterrupted refresh: the old row goes even when the rest is refused |
| AuthStore.AuthStateStore.IncrementOtpAttempts | src/auth/auth-state.store.ts:33-76 | count, lockout and row for any Redis content and failure |
| AuthStore.AuthStateStore.ClearOtpAttempts | src/auth/auth-state.store.ts:78-91 | removes the count of one e-mail and purpose only |
| AuthStore.AuthStateStore.SaveRefreshTokenJti | src/auth/auth-state.store.ts:126-149 | the row is live and dated, whether it was there or not |
| AuthStore.AuthStateStore.ConsumeRefreshTokenJti | src/auth/auth-state.store.ts:151-170 | deletes a usable row and returns its user; otherwise nothing, whatever Redis holds |
| AuthStore.AuthStateStore.RevokeRefreshTokenJti | src/auth/auth-state.store.ts:172-185 | marks one row revoked and no other |
| AuthStore.ConsoleOtpSender.CheckVerification | src/auth/otp-sender/console-otp.sender.ts:44-88 | verdict and counter are those of the check of module OtpRuns, for any Redis content and failure |
| OtpRuns.AcceptedIff | src/auth/otp-sender/console-otp.sender.ts:44-88 | in every run of sending and checking, a code is accepted exactly when it is the one last sent for its key and has not expired |
| OtpRuns.ChecksInvalidateNothing | src/auth/otp-sender/console-otp.sender.ts:72-88 | no checks, right or wrong, locked out or not, change what a later check says of a code |
| OtpRuns.RightAfterLockout | src/auth/otp-sender/console-otp.sender.ts:79-81 | after five wrong codes, the last told that the code is invalidated, the right one is accepted |
| OtpRuns.CheckDoes | src/auth/otp-sender/console-otp.sender.ts:44-88 | each answer of a check with its cause, and the count it leaves: cleared by an accepted code and by the fifth wrong one, raised by the others, untouched otherwise |
| Otp.StoredCountInRange | src/auth/auth-state.store.ts:33-76 | in every run a stored count is at least 1 and below the maximum |
| Otp.LockedExactlyAtMaximum | src/auth/auth-state.store.ts:33-76 | after any history, the k-th failure of a window counts k and locks exactly when k is the maximum |
| Otp.OpenWindow | src/auth/auth-state.store.ts:51-66 | a window keeps the expiry of its first failure |
| Chat.OneConversationPerPair | src/chat/chat.service.ts:24-90 | in every run two users have at most one conversation, and nobody one with themselves |
| Chat.GetOrCreateSymmetricIff | src/chat/chat.service.ts:24-90 | it does not matter which of the two users asks, exactly unless only one of them is a live account and the product, if one is named, exists |
| Chat.ProductAcceptedIff | src/chat/chat.service.ts:36-54 | about a product two users may start to talk exactly if it is available, whoever of them owns it |
| Chat.OwnerIsRefused | src/chat/chat.service.ts:47-51 | the owner of a sold product who writes to the buyer about it is turned away |
| Chat.ProductWasAvailable | src/chat/chat.service.ts:36-69 | in every run a conversation's product is one that some call of the run found available |
| Chat.AskingAgain | src/chat/chat.service.ts:56-72 | asking again, from either side, finds the same conversation and changes nothing |
| Chat.LastMessageIsNewest | src/chat/chat.service.ts:257-261 | in every run the last-message pointer names the newest message of its own conversation |
| Chat.RunExtends | src/chat/chat.service.ts:291-297 | in every run a conversation's product is set at most once and `read_at` never changes once set |
| Chat.UnreadIsSentLessRead | src/chat/chat.service.ts:171-177 | in every run a participant's unread count is what the other sent less what the participant has read for the first time |
| Chat.ReaderIsUser | src/chat/chat.service.ts:285-289 | a message can be marked read only by the participant who did not send it |
| Chat.StrictlyEqualIff | src/chat/chat.service.ts:47-51 | under `===` two columns compare as their numbers do, and a column and a number never |
| Chat.GetOrCreateRefused | src/chat/chat.service.ts:24-54 | what a conversation is refused for, in order |
| Chat.ExistingConversationDoes | src/chat/chat.service.ts:56-72 | a pair that has a conversation is answered with it, and a product is set on it only if it had none |
| Chat.NewConversationDoes | src/chat/chat.service.ts:74-89 | a pair that has none gets one row, the smaller id first |
| Chat.SendMessageDoes | src/chat/chat.service.ts:235-265 | refusals, the message as given and unread, and the conversation's pointer to it |
| Chat.MarkReadDoes | src/chat/chat.service.ts:267-301 | refusals, and the time of the first reading |
| Chat.ExecKeepsValid | src/chat/chat.service.ts:24-301 | every call keeps pairs distinct, senders participants and pointers newest |
| Chat.ChatService.GetOrCreateConversation | src/chat/chat.service.ts:24-90 | this and each other handler of the class does what its step of the state machine does, every refusal included |
| Chat.ChatService.GetConversationById | src/chat/chat.service.ts:144-189 | exactly participants are answered, with the number of the other's messages that they have not read |
| Chat.ChatService.AssertConversationParticipant | src/chat/chat.service.ts:332-370 | exactly participants pass; a missing conversation is told from a stranger's |
| FkExpansion.BatchedEqualsNaive | src/common/relations/fk-expansion.service.ts:52-86 | rewriting with only the collected ids fetched equals looking every id up in the database, for every payload |
| FkExpansion.RewriteNeedsOnlyRefs | src/common/relations/fk-expansion.service.ts:134-162 | the rewrite asks for no id that the first walk did not collect |
| FkExpansion.RewrittenKeysDistinct | src/common/relations/fk-expansion.service.ts:144-158 | colliding output keys never give a duplicate: the first keeps the key |
| FkExpansion.SuffixDropped | src/common/relations/fk-expansion.service.ts:376-378 | `user_id` comes out as `user`: every key that ends in `_id` loses exactly that |
| FkExpansion.OtherKeyKept | src/common/relations/fk-expansion.service.ts:376-378 | every other key stays as it is |
| FkExpansion.IdIff | src/common/relations/fk-expansion.service.ts:380-394 | what counts as an id: exactly a positive whole number, or its decimal text with or without leading zeros |
| FkExpansion.ForeignKeyExpands | src/common/relations/fk-expansion.service.ts:144-158 | a declared key `stem_id` becomes one entry named `stem` with the record of its entity under the id that the value denotes, and null if it denotes none or there is no record |
| FkExpansion.UserKeys | src/common/relations/fk-expansion.service.ts:16-43 | the fourteen keys that name users |
| FkExpansion.OtherKeys | src/common/relations/fk-expansion.service.ts:16-43 | the other keys with their entities, output names and the condition on `owner_id` |
| FkExpansion.NoOtherKey | src/common/relations/fk-expansion.service.ts:16-43 | no key but these is declared |
| FkExpansion.PlainUnchanged | src/common/relations/fk-expansion.service.ts:134-162 | a payload without foreign keys and without dates comes back unchanged |
| FkExpansion.PlainUnchangedIff | src/common/relations/fk-expansion.service.ts:396-398 | of the payloads without foreign keys, exactly those without dates come back unchanged, whatever the database holds |
| FkExpansion.DatesComeFromRecords | src/common/relations/fk-expansion.service.ts:134-162 | no date of a payload survives: those of the response lie within fetched records |
| FkExpansion.DateIsLost | src/common/relations/fk-expansion.service.ts:396-398 | a row's creation time comes back as an empty object, although no key of the row is a foreign or an inherited one |
| FkExpansion.AsDeclaredIff | src/common/relations/fk-expansion.service.ts:134-162 | for every payload, the expansion is the one its declared rules ask for exactly if each inherited key that reaches the output holds null |
| FkExpansion.UnchangedIff | src/common/relations/fk-expansion.service.ts:134-162 | a payload without declared foreign keys comes back unchanged exactly if each inherited key that reaches the output holds null and there is no date anywhere in it |
| FkExpansion.OneKeyUnchangedIff | src/common/relations/fk-expansion.service.ts:145-150 | a value without foreign or inherited keys, under one undeclared key, survives exactly if it is null, or if the key is not inherited and the value has no date in it |
| FkExpansion.ConstructorIsLost | src/common/relations/fk-expansion.service.ts:145-150 | a flag named `constructor` comes back as null, whatever the database holds |
| FkExpansion.KeysAreClaimed | src/common/relations/fk-expansion.service.ts:144-158 | the output has exactly the keys that some entry asks for |
| FkExpansion.Walk | src/common/relations/fk-expansion.service.ts:58-86 | collects exactly the ids that foreign keys name anywhere in the payload |
| FkExpansion.ResolveEntities | src/common/relations/fk-expansion.service.ts:88-132 | one fetch per entity type, of exactly the collected ids |
| FkExpansion.TransformNode | src/common/relations/fk-expansion.service.ts:134-162 | the loop that fills the output key by key computes the naive rewrite |
| FkExpansion.Expand | src/common/relations/fk-expansion.service.ts:52-56 | the whole expansion is the naive rewrite against the database, and by the declared rules alone exactly if the payload is harmless |
| Like.ContainsSearch | src/common/helpers/db.helpers.ts:22-24 | `%` + escaped text + `%` matches exactly the rows in which the text occurs literally |
| Like.IContainsSearch | src/products/products.service.ts:295-302 | the same up to case under ILIKE |
| Like.EscapesAgree | src/kayan/kayan.service.ts:1358-1360 | the two escape functions agree on every text |
| Like.EscapeInjective | src/common/helpers/db.helpers.ts:22-24 | different texts give different patterns |
| Like.UnescapeEscape | src/common/helpers/db.helpers.ts:22-24 | unescaping gives the text back |
| Queries.CompileMeans | src/products/products.service.ts:262-322 | for any filters and any parameters before and behind, the clauses hold exactly of the rows that meet every wanted filter |
| Queries.TailIrrelevant | src/kayan/kayan.service.ts:402-405 | the count query without limit and offset selects the same rows |
| Queries.SearchMeans | src/products/products.service.ts:262-322 | the marketplace search selects exactly the requested rows, `all` being any subcategory |
| Queries.ContainsMeans | src/products/products.service.ts:295-302 | a pattern parameter asks for literal occurrence, and NULL contains nothing |
| Listings.PushIf | src/products/products.service.ts:271-274 | a pushed value and a clause that names its place |
| Listings.BuildSearchFilters | src/products/products.service.ts:262-322 | the eleven filters compile behind any leading parameters |
| Listings.ListMyProducts | src/products/products.service.ts:181-219 | refuses a wrong category pair, and otherwise returns the requested page of exactly the user's own rows that meet the filters, ascending or descending in price, city, seller rate or creation time as the request names it, equal values by descending id, and newest first if it names nothing |
| Listings.SearchProducts | src/products/products.service.ts:221-260 | refuses a wrong category pair, and otherwise returns the requested page of exactly the available rows that meet the filters, in the same orders |
| Listings.PairErrorIs | src/products/products.service.ts:355-374 | a category and a subcategory asked for together: which of the two is told to be wrong |
| Listings.CatalogMeans | src/kayan/kayan.service.ts:86-132 | WHERE and HAVING together select exactly the requested products |
| Listings.BuildCatalogFilters | src/kayan/kayan.service.ts:86-132 | the catalogue's filters, those in HAVING behind the same parameters |
| Listings.ListProducts | src/kayan/kayan.service.ts:86-154 | returns the requested page of exactly the products asked for, arranged by price or by the text of the creation time as asked, then by id |
| Listings.AdminListOrders | src/kayan/kayan.service.ts:375-419 | page and total: the page is arranged as asked, the total counts every matching order |
| Listings.AdminListFaults | src/kayan/kayan.service.ts:538-600 | page and total: the page is arranged by date or severity as asked, the total counts every matching fault |
| Listings.DueIsSettled | src/kayan/kayan.service.ts:1380-1391 | however the database arranges the matching rows to answer one request, by any of the sort orders, the page cut out of them is the page of one and the same list |
| Listings.PageAndTotal | src/kayan/kayan.service.ts:395-405 | limit and offset go last; the count is taken without them |
| Paging.PagesTile | src/common/helpers/pagination.helpers.ts:9-19 | pages 1 to k joined are the first k·limit rows |
| Paging.RowOnOnePage | src/common/helpers/pagination.helpers.ts:14-16 | row i of the result is shown by page i / limit + 1 and by no other, in its place |
| Sorting.SeparatePagesAgree | src/products/products.service.ts:212-213 | with the id as tie-break, pages requested one by one are pages of one list, by any column or by severity, ascending or descending, NULL being the greatest value |
| Sorting.ByColumnMeans | src/products/products.service.ts:212-213 | an arrangement by a column is one in which each value is no greater, or no smaller, than those behind it, NULL being the greatest, and equal values go by descending id |
| Sorting.BySeverityMeans | src/kayan/kayan.service.ts:1380-1391 | an arrangement by severity goes by normal, high, urgent, emergent and the rest, within one severity newest first and then by descending id |
| Seqs.OneArrangement | src/kayan/kayan.service.ts:1380-1391 | an order that decides every two rows has one arrangement |
| Sorting.UserListSettledIff | src/admin/admin.service.ts:50-70 | the user list has one arrangement exactly when no two users share a creation time |
| Grouping.GroupBy | scripts/lib/api-list-generator.ts:774-786 | each bucket holds the rows of its key in their order; keys come in first-met order |
| Grouping.GroupsPartition | scripts/lib/api-list-generator.ts:774-786 | the groups joined are the rows: none lost, none twice |
| Grouping.AttachGroups | src/kayan/kayan.service.ts:1283-1347 | every parent gets exactly its rows, and none gets none; items of orders, images of faults and galleries |
| Grouping.BucketIsNestedAnswer | src/kayan/kayan.service.ts:1203-1235 | a bucket of one ordered query is the answer of that group's own ordered query |
| Assets.SyncIff | src/kayan/kayan.service.ts:1362-1370 | replacing succeeds exactly when the files exist, are listed once and are not in the parent's other slot; then every other row is kept |
| Assets.InsertAllIff | src/kayan/kayan.service.ts:1362-1370 | the inserts go through exactly when no unique or foreign key refuses one |
| Assets.ReplaceThenAttach | src/kayan/kayan.service.ts:1126-1163 | after an update of both lists, the one query for all products shows this product's listed images and listed files, each in the listed order with sort orders 0, 1, 2, … |
| Assets.SyncThenAttach | src/kayan/kayan.service.ts:1126-1163 | after an update of one list, the query shows that list, and everything else on the page as before |
| Assets.SyncKeepsOthers | src/kayan/kayan.service.ts:1362-1370 | every other slot, of this parent and of all others, keeps its rows |
| Assets.SyncKeepsValid | src/kayan/kayan.service.ts:1362-1370 | the unique key over images and files together survives |
| Assets.ReplaceBothIff | src/kayan/kayan.service.ts:188-191 | exactly when an update of images and files goes through |
| Assets.FormerFileIsRefusedAsImage | src/kayan/kayan.service.ts:188-191 | an update that lists one of the product's files so far as an image is refused, whatever else it asks for |
| Assets.ChangingSidesIff | src/kayan/kayan.service.ts:188-191 | of an update whose lists are in order, nothing but that is refused; a former image may become a file |
| Assets.SwapIsRefused | src/kayan/kayan.service.ts:188-191 | an image and a file cannot be swapped, although the outcome would be a legal table |
| Assets.MoveToFilesGoesThrough | src/kayan/kayan.service.ts:188-191 | an image can be moved to the files |
| Assets.SyncFaultIff | src/kayan/kayan.service.ts:1436-1452 | fault images are accepted exactly when each is a valid uploaded image and none is listed twice |
| Assets.FileProblemIs | src/kayan/kayan.service.ts:1436-1452 | what is wrong with a file, in this order: missing, not uploaded, for another purpose, no image |
| Assets.FirstProblemIs | src/kayan/kayan.service.ts:1436-1452 | the problem told is that of the first bad file on the list |
| Assets.InsertAllRefuses | src/kayan/kayan.service.ts:1362-1370 | the inserts stop at the first file that is there already, listed again or missing, and say which |
| Assets.AttachProductAssets | src/kayan/kayan.service.ts:1126-1163 | one pass gives every product its own images and its own files, in the query's order |
| Assets.AttachedIsNested | src/kayan/kayan.service.ts:1126-1163 | what one query attaches to a product is what its own query would return |
| Assets.SlotsPartition | src/kayan/kayan.service.ts:1126-1163 | images and files of a product together are its rows, none lost and none in both |
| Assets.AssetTable.SyncAssets | src/kayan/kayan.service.ts:1362-1370 | delete, then insert row by row, stopping at the first refusal |
| Assets.AssetTable.ReplaceProductAssets | src/kayan/kayan.service.ts:174-194 | both lists in one transaction, all or nothing |
| Assets.AssetTable.AssertValidFaultImageFiles | src/kayan/kayan.service.ts:1436-1452 | the first problem of the listed files, each looked at once |
| Assets.AssetTable.SyncFaultAssets | src/kayan/kayan.service.ts:1372-1378 | validation before the first delete |
| MarketImages.ProductImages.SyncProductImages | src/products/products.service.ts:386-440 | succeeds exactly when every file is the actor's own uploaded product image, repetitions allowed; rows, sort orders and file owners afterwards |
| MarketImages.OthersKeyed | src/products/products.service.ts:392-392 | deleting a product's images keeps the key over product and sort order |
| MarketImages.ProblemIs | src/products/products.service.ts:414-422 | what is wrong with a file, in this order: missing, for another purpose, somebody else's, not uploaded |
| MarketImages.ClaimedIs | src/products/products.service.ts:436-440 | a listed file belongs to the product afterwards, and every other column and file is as before |
| Scanner.FindMatching | scripts/lib/api-list-generator.ts:680-710 | from any place, the first closing bracket at depth zero; from an opening bracket, its partner in the grammar, and -1 exactly when there is none |
| Scanner.FindMatchingParen | scripts/lib/api-list-generator.ts:680-694 | the partner of an opening parenthesis |
| Scanner.FindMatchingBrace | scripts/lib/api-list-generator.ts:696-710 | the partner of an opening brace |
| Scanner.LevelIsBalanced | scripts/lib/api-list-generator.ts:680-710 | the grammar derives every text that is level and never closes more than is open |
| Scanner.BalancedIsLevel | scripts/lib/api-list-generator.ts:680-710 | and no other |
| Scanner.OnePartner | scripts/lib/api-list-generator.ts:680-710 | an opening bracket has at most one partner |
| Scanner.FindMethodBodyBrace | scripts/lib/api-list-generator.ts:712-772 | the first brace outside strings at which all four clamped depths are zero, and -1 exactly when there is none |
| Scanner.StringUntilItsQuote | scripts/lib/api-list-generator.ts:722-733 | each of the three quotes opens a string that only the same quote closes, the first without a backslash before it |
| Scanner.CodeOpensNoString | scripts/lib/api-list-generator.ts:722-733 | without a quote no string opens |
| Scanner.WhatCounts | scripts/lib/api-list-generator.ts:735-767 | a bracket outside strings counts one up or down, never below zero; inside strings nothing counts |
| Scanner.BodyBraceIs | scripts/lib/api-list-generator.ts:735-767 | the four kinds of brackets that count |
| Scanner.ClampedIsGreatestSurplus | scripts/lib/api-list-generator.ts:735-767 | a clamped depth is the greatest surplus of opening brackets over any stretch that ends there |
| Sanitize.LogIsSmall | src/common/logging/logging.utils.ts:17-52 | whatever is logged nests at most four containers and has at most 1 + 30 + 30² + 30³ + 30⁴ nodes |
| Sanitize.SecretsAreRedacted | src/common/logging/logging.utils.ts:41-50 | at every level `[REDACTED]` stands under every sensitive key |
| Sanitize.SensitiveIff | src/common/logging/logging.utils.ts:1-10 | the eight words that make a key sensitive |
| Sanitize.SeparatorsDropped | src/common/logging/logging.utils.ts:43-44 | `_` and `-` do not matter in a key, wherever they stand, and nothing else is ignored |
| Sanitize.LogDependsOnNoSecret | src/common/logging/logging.utils.ts:41-50 | payloads alike but for what stands under sensitive keys are logged the same |
| Sanitize.PlainIsUnchanged | src/common/logging/logging.utils.ts:17-52 | a payload within the limits, without secrets and without dates is logged as it is |
| Sanitize.PlainUnchangedIff | src/common/logging/logging.utils.ts:41-51 | of the payloads within the limits and without secrets, exactly those without dates are logged as they are |
| Sanitize.TooMuchIsCut | src/common/logging/logging.utils.ts:17-41 | texts beyond 300 characters, arrays beyond 20 items, objects beyond 30 keys and containers beyond the fourth level, with what stands for the rest |
| Sanitize.LogIsDateless | src/common/logging/logging.utils.ts:41-51 | no date reaches the log |
| Sanitize.SanitizeForLog | src/common/logging/logging.utils.ts:17-52 | the recursion ends because only four levels are entered |
| Sanitize.SanitizeArray | src/common/logging/logging.utils.ts:33-39 | the first twenty items, then a marker that counts the rest |
| Sanitize.SanitizeObject | src/common/logging/logging.utils.ts:41-51 | the first thirty entries, key by key |

## Left out

- Cart edits of a user during that user's own checkout: a row inserted in between is deleted without being ordered; the model has cart edits wait for the checkout.
- Statement-level interleaving of status, rating, chat and asset calls: each of those calls is one step.
- Rounding of prices to NUMERIC(12,2), and the text form of amounts and timestamps.
- Titles, descriptions and details of catalogue products; their images and files are in module Assets.
- Password hashing, signing, hashing of codes and random bytes: they are parameters.
- Names and postal addresses of accounts, edits of phone and address by their owner, and the request that starts a registration.
- FkExpansion.Expand: digits of an id are read as an unbounded integer, so ids beyond 2^53 are not rounded; a payload key `__proto__` and an entity that exists for an inherited key are excluded.
- Sanitize.SanitizeForLog: an object's entries are taken to have different keys other than `__proto__`.
- Service orders, their status changes and their ratings: like orders they have no transition graph.
- listUsers and listMyFaults filters: the same builder pattern again. The category lists are a parameter.
- Cleaning up expired token and code rows, resending codes, the one-time-code provider over the network.
- seedAdminUser, which sets `is_admin` without raising the version: it runs before any token is issued.
- Joins for display columns, file URLs, the socket gateway, controllers, guards and DTO decorators.
- Message paging by time, follow-up steps and conversations, gallery items other than their images, and the Markdown rendering of the API list, flattenSchemaFields included.
