# Crypto exchange trading core in Dafny

This project models the trading core of a Kotlin/Spring crypto exchange (package
`s4got10dev.crypto.exchange`) and proves properties of it:

- the wallet ledger, a map from currency to amount in which an absent currency reads as zero;
- the order lifecycle (`OPEN`, `FILLED`, `CANCELED`, with only the amount and the status mutable);
- order placement with its fixed chain of validation checks, order lookup and cancellation;
- the batch matching pass, which runs over every buy order against every sell order of a currency pair
  at one oracle price;
- wallet creation, deposit and withdrawal through a payment gateway;
- user registration and lookup;
- the append-only transaction log and its paged reading;
- the REST adapters that turn requests into commands and queries;
- the error taxonomy and its mapping to HTTP problem responses;
- the decimal helpers (`scaled`, `isZero`, `trim`, `string`) and the order persistence mapper.

Amounts are `java.math.BigDecimal` values and are modelled exactly, as an unscaled integer and a scale
(`Numbers.Decimal`), with `Numbers.Value` giving the rational number they stand for. Every comparison the
source makes with `compareTo` is a comparison of values. `scaled` is HALF_UP rounding to 18 fractional
digits. `trim` is `stripTrailingZeros`, and `string` is `stripTrailingZeros().toPlainString()`.

Structure, one module per file:

| module | file | models |
|---|---|---|
| `Wrappers` | wrappers.dfy | nullable values (`Option`) and outcomes (`Result`) |
| `Types` | types.dfy | currencies, identifiers, `UUID.toString`, transaction and user records |
| `Numbers` | numbers.dfy | `BigDecimal` arithmetic, `scaled`, `isZero`, `trim`, `string` |
| `Entities` | entities.dfy | `Wallet` and `Order` as classes whose fields change in place, with their values |
| `UseCases` | usecases.dfy | commands, queries, `toOrder`/`toWallet`/`toUser`, transaction events |
| `Errors`, `ErrorMapper` | errors.dfy, error_mapper.dfy | the six domain errors and the problem response |
| `OrderMapper` | order_mapper.dfy | `toOrderTable`/`toOrder` |
| `Events` | events.dfy | the application event publisher, as the list of published events |
| `Stores` | stores.dfy | the four repositories as classes over in-memory maps and a log |
| `OrderServices` | order_service.dfy | `OrderService` |
| `Matching` | matching.dfy | `OrderMatchingService` |
| `WalletServices` | wallet_service.dfy | `WalletService` and the payment gateway |
| `TransactionServices` | transaction_service.dfy | `TransactionService` |
| `UserServices` | user_service.dfy | `UserService` |
| `Adapters` | adapters.dfy | `WalletAdapter`, `OrderAdapter`, `TransactionAdapter` |

Each service operation that changes state is a method of a class. It works on the store objects and
entity objects, as the source does. Its `ensures` ties the new state to a function on values (for example
`WalletServices.DepositOutcome`). The properties the source promises are proved about those functions as
lemmas.

Repositories are in-memory:

- `findById` hands out a fresh copy.
- `save` overwrites the row under its id.
- The id the database would assign to a new row is a parameter.

The price oracle's answer, the payment gateway's answer, the bean validator's verdict and the outcome of
`UUID.fromString` are also parameters.

## Model

| member | source | states |
|---|---|---|
| Types.Currency.Type | src/main/kotlin/s4got10dev/crypto/exchange/domain/entity/Currency.kt:6-17 | USD and EUR are FIAT and the three others CRYPTO |
| Types.CurrencyNameInjective | src/main/kotlin/s4got10dev/crypto/exchange/domain/entity/Currency.kt:6-12 | distinct currencies have distinct names |
| Types.UuidString | src/main/kotlin/s4got10dev/crypto/exchange/domain/entity/types.kt:15-23 | an identifier prints as 36 characters with dashes at positions 8, 13, 18 and 23 |
| Types.UuidStringInjective | src/main/kotlin/s4got10dev/crypto/exchange/domain/entity/types.kt:15-23 | two identifiers print alike only when they are equal, so messages naming an id name exactly one |
| Types.NullableUuidString | src/main/kotlin/s4got10dev/crypto/exchange/domain/usecase/transaction.kt:47 | a missing order id prints as "null" and a present one as 36 characters |
| Numbers.Add | src/main/kotlin/s4got10dev/crypto/exchange/domain/entity/Wallet.kt:26 | `+` is exact and keeps the larger scale |
| Numbers.Sub | src/main/kotlin/s4got10dev/crypto/exchange/domain/entity/Wallet.kt:30 | `-` is exact and keeps the larger scale |
| Numbers.Mul | src/main/kotlin/s4got10dev/crypto/exchange/application/service/OrderMatchingService.kt:79 | `*` is exact and adds the scales |
| Numbers.Min | src/main/kotlin/s4got10dev/crypto/exchange/application/service/OrderMatchingService.kt:78 | `minOf` gives one of its arguments, at most both, and the first one on a tie |
| Numbers.NegativeOrZero | src/main/kotlin/s4got10dev/crypto/exchange/domain/utils/numbers.kt:7-9 | holds exactly when the amount is missing or at most zero |
| Numbers.Scaled | src/main/kotlin/s4got10dev/crypto/exchange/domain/utils/numbers.kt:15-17 | the result has scale 18 and is the nearest multiple of 10^-18, a tie going away from zero (HALF_UP); this fixes the result uniquely |
| Numbers.ScaledTiesAwayFromZero | src/main/kotlin/s4got10dev/crypto/exchange/domain/utils/numbers.kt:15-17 | 2.5·10^-18 rounds to 3·10^-18 and -2.5·10^-18 to -3·10^-18 |
| Numbers.ScaledMonotone | src/main/kotlin/s4got10dev/crypto/exchange/domain/utils/numbers.kt:15-17 | rounding keeps the order of amounts |
| Numbers.ScaledIdempotent | src/main/kotlin/s4got10dev/crypto/exchange/domain/utils/numbers.kt:15-17 | rounding a rounded amount changes nothing |
| Numbers.ScaledExact | src/main/kotlin/s4got10dev/crypto/exchange/domain/utils/numbers.kt:15-17 | an amount with at most 18 fractional digits keeps its value |
| Numbers.ScaledPositive | src/main/kotlin/s4got10dev/crypto/exchange/domain/utils/numbers.kt:15-17 | an amount rounds to something positive exactly when it is at least 5·10^-19 |
| Numbers.ScaledOfTiny | src/main/kotlin/s4got10dev/crypto/exchange/domain/utils/numbers.kt:15-17 | anything strictly within 5·10^-19 of zero rounds to 0 at scale 18 |
| Numbers.ZeroScaledIsZero | src/main/kotlin/s4got10dev/crypto/exchange/domain/utils/numbers.kt:15-17 | zero rounds to zero |
| Numbers.IsZero | src/main/kotlin/s4got10dev/crypto/exchange/domain/utils/numbers.kt:11-13 | holds exactly when the amount is strictly within 5·10^-19 of zero |
| Numbers.Trim | src/main/kotlin/s4got10dev/crypto/exchange/domain/utils/numbers.kt:19-21 | the result has the same value and no trailing zero |
| Numbers.TrimIdempotent | src/main/kotlin/s4got10dev/crypto/exchange/domain/utils/numbers.kt:19-21 | trimming twice is trimming once |
| Numbers.StrippedUnique | src/main/kotlin/s4got10dev/crypto/exchange/domain/utils/numbers.kt:19-21 | two trimmed amounts with the same value are the same representation |
| Numbers.TrimCanonical | src/main/kotlin/s4got10dev/crypto/exchange/domain/utils/numbers.kt:19-21 | equal amounts trim to the same representation |
| Numbers.AmountString | src/main/kotlin/s4got10dev/crypto/exchange/domain/utils/numbers.kt:23-25 | a printed fraction never ends in 0 |
| Numbers.PlainStringRoundTrip | src/main/kotlin/s4got10dev/crypto/exchange/domain/utils/numbers.kt:23-25 | `toPlainString` reads back to the same value, and to the same decimal when the scale is not negative |
| Numbers.AmountStringRoundTrip | src/main/kotlin/s4got10dev/crypto/exchange/domain/utils/numbers.kt:23-25 | the text `string` gives reads back to the same value |
| Numbers.AmountStringDependsOnValue | src/main/kotlin/s4got10dev/crypto/exchange/domain/utils/numbers.kt:23-25 | equal amounts print alike whatever their scales |
| Numbers.AmountStringOfTen | src/test/kotlin/s4got10dev/crypto/exchange/integration/TradeMatchingIT.kt:87 | 10 prints as "10" at scale 0 and at scale 3 |
| Numbers.AmountStringOfFractions | src/main/kotlin/s4got10dev/crypto/exchange/domain/utils/numbers.kt:23-25 | -1.250 prints as "-1.25" and 0.005 as "0.005" |
| Entities.BalanceOf | src/main/kotlin/s4got10dev/crypto/exchange/domain/entity/Wallet.kt:17-19 | a currency without an entry reads as ZERO |
| Entities.Credit | src/main/kotlin/s4got10dev/crypto/exchange/domain/entity/Wallet.kt:25-27 | the currency's balance (zero when absent) grows by the amount; the entry is created; other entries, id, owner and name are unchanged |
| Entities.Debit | src/main/kotlin/s4got10dev/crypto/exchange/domain/entity/Wallet.kt:29-31 | the currency's balance shrinks by the amount with no non-negativity check; everything else is unchanged |
| Entities.CreditDebitLocal | src/main/kotlin/s4got10dev/crypto/exchange/domain/entity/Wallet.kt:21-31 | other currencies read the same after a credit or a debit |
| Entities.CreditThenDebitRestores | src/main/kotlin/s4got10dev/crypto/exchange/domain/entity/Wallet.kt:25-31 | adding and then subtracting an amount restores every balance's value |
| Entities.CreditValue | src/main/kotlin/s4got10dev/crypto/exchange/domain/entity/Wallet.kt:25-27 | the value of every currency after a credit |
| Entities.DebitValue | src/main/kotlin/s4got10dev/crypto/exchange/domain/entity/Wallet.kt:29-31 | the value of every currency after a debit |
| Entities.Wallet.GetBalance | src/main/kotlin/s4got10dev/crypto/exchange/domain/entity/Wallet.kt:17-19 | the entry, or ZERO without one |
| Entities.Wallet.AddBalance | src/main/kotlin/s4got10dev/crypto/exchange/domain/entity/Wallet.kt:25-27 | the wallet object afterwards holds `Credit` of what it held |
| Entities.Wallet.SubtractBalance | src/main/kotlin/s4got10dev/crypto/exchange/domain/entity/Wallet.kt:29-31 | the wallet object afterwards holds `Debit` of what it held |
| Entities.Wallet.constructor | src/main/kotlin/s4got10dev/crypto/exchange/domain/entity/Wallet.kt:7-15 | a wallet object holds the row it is built from |
| Entities.Order.constructor | src/main/kotlin/s4got10dev/crypto/exchange/domain/entity/Order.kt:6-18 | an order object holds the row it is built from; only amount, status, updatedAt and version are assignable fields |
| Entities.SameOrder | src/main/kotlin/s4got10dev/crypto/exchange/domain/entity/Order.kt:6-18 | two rows are the same order when they differ only in amount, status, updatedAt and version |
| UseCases.PlaceOrderCommand.ToOrder | src/main/kotlin/s4got10dev/crypto/exchange/domain/usecase/order.kt:23-34 | a new order has no id, is OPEN at version 0, and copies the six command fields |
| UseCases.ToOrderRoundTrip | src/main/kotlin/s4got10dev/crypto/exchange/domain/usecase/order.kt:20-34 | the command can be read back from the order, and exactly one of `isBuy`/`isSell` holds |
| UseCases.CreateWalletCommand.ToWallet | src/main/kotlin/s4got10dev/crypto/exchange/domain/usecase/wallet.kt:17-24 | a new wallet has no id, copies owner and name, and holds ZERO for exactly the requested currencies |
| UseCases.FreshWalletReadsZero | src/main/kotlin/s4got10dev/crypto/exchange/domain/usecase/wallet.kt:22 | a new wallet reads zero for every currency, requested or not |
| UseCases.ToWalletIgnoresDuplicates | src/main/kotlin/s4got10dev/crypto/exchange/domain/usecase/wallet.kt:22 | repeating a requested currency changes nothing |
| UseCases.CreateUserCommand.ToUser | src/main/kotlin/s4got10dev/crypto/exchange/domain/usecase/user.kt:17-26 | a new user has no id and copies the five command fields |
| UseCases.TransactionCreatedEvent.UserId | src/main/kotlin/s4got10dev/crypto/exchange/domain/usecase/transaction.kt:21-83 | deposit and withdrawal records belong to the wallet's owner, order records to the order's owner |
| UseCases.TransactionCreatedEvent.WalletId | src/main/kotlin/s4got10dev/crypto/exchange/domain/usecase/transaction.kt:21-83 | deposit and withdrawal records need the wallet's id; order records name the order's wallet |
| UseCases.PaymentMetadata | src/main/kotlin/s4got10dev/crypto/exchange/domain/usecase/transaction.kt:21-39 | deposit and withdrawal metadata are exactly the amount as `string` gives it and the currency's name |
| UseCases.PlacedMetadata | src/main/kotlin/s4got10dev/crypto/exchange/domain/usecase/transaction.kt:41-53 | placement metadata are exactly orderId, amount, type, baseCurrency and quoteCurrency |
| UseCases.CancelAndFillMetadata | src/main/kotlin/s4got10dev/crypto/exchange/domain/usecase/transaction.kt:55-83 | cancellation records only the order id; both fill kinds record the order id and the traded amount |
| UseCases.TransactionCreatedEvent.Type | src/main/kotlin/s4got10dev/crypto/exchange/domain/usecase/transaction.kt:21-83 | the transaction type each of the six events is recorded with; `TypeIdentifiesEvent` shows the type determines the event's kind |
| UseCases.TransactionCreatedEvent.Metadata | src/main/kotlin/s4got10dev/crypto/exchange/domain/usecase/transaction.kt:21-83 | the metadata each event records; its keys and values are pinned by `PaymentMetadata`, `PlacedMetadata` and `CancelAndFillMetadata` |
| UseCases.TypeIdentifiesEvent | src/main/kotlin/s4got10dev/crypto/exchange/domain/usecase/transaction.kt:21-83 | each of the six events has its own transaction type |
| UseCases.FillRecordsTradedAmount | src/main/kotlin/s4got10dev/crypto/exchange/domain/usecase/transaction.kt:63-83 | a fill record depends on the traded amount's value and the order id, not on what the order has left |
| Errors.TypeCode | src/main/kotlin/s4got10dev/crypto/exchange/domain/error/errors.kt:10-56 | the six type codes, one per kind (`validation-error`, `bad-request`, `not-found`, `non-processable`, `unauthorized`, `internal-error`); `TypeCodeIdentifiesKind` shows they are pairwise distinct |
| Errors.Title | src/main/kotlin/s4got10dev/crypto/exchange/domain/error/errors.kt:10-56 | the six titles, one per kind; `TitleIdentifiesKind` shows they are pairwise distinct |
| Errors.TypeCodeIdentifiesKind | src/main/kotlin/s4got10dev/crypto/exchange/domain/error/errors.kt:10-56 | each of the six type codes names exactly one kind |
| Errors.TitleIdentifiesKind | src/main/kotlin/s4got10dev/crypto/exchange/domain/error/errors.kt:10-56 | each of the six titles names exactly one kind |
| Errors.WithCause | src/main/kotlin/s4got10dev/crypto/exchange/domain/error/errors.kt:58-63 | without a cause, or with a cause that has no message, the message is unchanged; otherwise the message stays in front and the result is 13 characters longer than message and cause together |
| Errors.WithCauseKeepsBoth | src/main/kotlin/s4got10dev/crypto/exchange/domain/error/errors.kt:58-63 | the result is exactly the message, then ` caused by '`, then the cause's message, then a closing quote |
| Errors.MakeError | src/main/kotlin/s4got10dev/crypto/exchange/domain/error/errors.kt:3-16 | an error keeps its kind; its message is the given message when there is no cause or the cause has no message, and otherwise the given message followed by ` caused by '`, the cause's message and a closing quote |
| Errors.MakeErrorKeepsCause | src/main/kotlin/s4got10dev/crypto/exchange/domain/error/errors.kt:58-63 | two errors of the same kind and message built with messaged causes are equal exactly when the causes' messages are equal, so the cause can be read back from the error |
| ErrorMapper.ToErrorResponse | src/main/kotlin/s4got10dev/crypto/exchange/interfaces/rest/mapper/error.kt:17-25 | type, title, message, instance and details pass through; the status is the kind's; violations only for a validation error |
| ErrorMapper.ThrowableToErrorResponse | src/main/kotlin/s4got10dev/crypto/exchange/interfaces/rest/mapper/error.kt:27-37 | a non-domain throwable answers internal-error, 500, with its message or "Unknown Error" |
| ErrorMapper.Status | src/main/kotlin/s4got10dev/crypto/exchange/interfaces/rest/mapper/error.kt:17-25 | validation and bad-request errors answer 400, not-found 404, non-processable 422, unauthorized 401 and internal 500; `StatusIsKnown` and `StatusDeterminesKind` state what the table guarantees |
| ErrorMapper.StatusIsKnown | src/main/kotlin/s4got10dev/crypto/exchange/interfaces/rest/mapper/error.kt:17-37 | every answer is 400, 401, 404, 422 or 500, and 500 exactly for internal errors |
| ErrorMapper.StatusDeterminesKind | src/main/kotlin/s4got10dev/crypto/exchange/interfaces/rest/mapper/error.kt:17-25 | a status other than 400 determines the kind; 400 serves validation and bad request |
| ErrorMapper.PlatformAnswersAsInternal | src/main/kotlin/s4got10dev/crypto/exchange/interfaces/rest/mapper/error.kt:24-37 | a platform exception answers exactly like a domain internal error with its message |
| OrderMapper.ToOrderTable | src/main/kotlin/s4got10dev/crypto/exchange/infrastructure/persistence/mapper/order.kt:7-19 | every field is copied; the amount keeps its value in trimmed form |
| OrderMapper.ToOrder | src/main/kotlin/s4got10dev/crypto/exchange/infrastructure/persistence/mapper/order.kt:21-33 | every field is copied; the amount keeps its value in trimmed form |
| OrderMapper.OrderRoundTrip | src/main/kotlin/s4got10dev/crypto/exchange/infrastructure/persistence/mapper/order.kt:7-33 | writing and reading an order gives it back with its amount trimmed |
| OrderMapper.RoundTripStable | src/main/kotlin/s4got10dev/crypto/exchange/infrastructure/persistence/mapper/order.kt:7-33 | a second round trip changes nothing, from either side |
| OrderMapper.RowDependsOnValue | src/main/kotlin/s4got10dev/crypto/exchange/infrastructure/persistence/mapper/order.kt:12 | orders differing only in their amount's scale are stored as the same row |
| Events.EventPublisher.Publish | src/main/kotlin/s4got10dev/crypto/exchange/application/service/OrderService.kt:48-49 | publishing appends the event and removes nothing |
| Stores.PersistedWallet | src/main/kotlin/s4got10dev/crypto/exchange/domain/repository/WalletRepository.kt:9 | a saved wallet keeps its id, or receives the assigned one |
| Stores.NameTaken | src/main/kotlin/s4got10dev/crypto/exchange/domain/repository/WalletRepository.kt:11 | some wallet of the user has that name |
| Stores.WalletStore.ExistsByUserIdAndName | src/main/kotlin/s4got10dev/crypto/exchange/infrastructure/persistence/repository/WalletSqlDbRepository.kt:25-27 | true exactly when one of the wallets `findAllByUserId` lists for the user has that name |
| Stores.WalletStore.FindById | src/main/kotlin/s4got10dev/crypto/exchange/domain/repository/WalletRepository.kt:13 | a fresh wallet object holding the row, or null when there is none |
| Stores.WalletStore.FindAllByUserId | src/main/kotlin/s4got10dev/crypto/exchange/domain/repository/WalletRepository.kt:15 | exactly the user's wallets |
| Stores.WalletStore.Save | src/main/kotlin/s4got10dev/crypto/exchange/domain/repository/WalletRepository.kt:9 | the row is written under its id, overwriting, and nothing else changes |
| Stores.PersistedOrder | src/main/kotlin/s4got10dev/crypto/exchange/domain/repository/OrderRepository.kt:12 | a saved order comes back unchanged except that it carries its id (or the assigned one) and its amount is trimmed to the same value |
| Stores.SaveOrderRow | src/main/kotlin/s4got10dev/crypto/exchange/domain/repository/OrderRepository.kt:12 | an order with an id is stored as its row under that id |
| Stores.OrderStore.FindById | src/main/kotlin/s4got10dev/crypto/exchange/domain/repository/OrderRepository.kt:14 | a fresh order object read back from the row, or null |
| Stores.OrderStore.FindAllByUserId | src/main/kotlin/s4got10dev/crypto/exchange/domain/repository/OrderRepository.kt:16 | exactly the user's orders, read back from their rows |
| Stores.OrderStore.Save | src/main/kotlin/s4got10dev/crypto/exchange/domain/repository/OrderRepository.kt:12 | the row is written under its id, overwriting, and nothing else changes |
| Stores.UsernameOrEmailTaken | src/main/kotlin/s4got10dev/crypto/exchange/domain/repository/UserRepository.kt:16 | some user has that username or that email |
| Stores.UserStore.ExistsByUsernameOrEmail | src/main/kotlin/s4got10dev/crypto/exchange/infrastructure/persistence/repository/UserSqlDbRepository.kt:32-34 | true exactly when some stored user has that username or that email |
| Stores.UserStore.FindById | src/main/kotlin/s4got10dev/crypto/exchange/domain/repository/UserRepository.kt:12 | the row under the id, or none |
| Stores.UserStore.Save | src/main/kotlin/s4got10dev/crypto/exchange/domain/repository/UserRepository.kt:10 | the row is written under its id, overwriting, and nothing else changes |
| Stores.Mine | src/main/kotlin/s4got10dev/crypto/exchange/infrastructure/persistence/repository/TransactionSqlDbRepository.kt:31-39 | exactly the log's records of the user, in the order they were appended |
| Stores.NewestFirst | src/main/kotlin/s4got10dev/crypto/exchange/infrastructure/persistence/repository/TransactionSqlDbRepository.kt:35 | every record of the user and nothing else, the newest first: the k-th entry is the k-th from the end of the user's records in log order |
| Stores.NewestFirstMembers | src/main/kotlin/s4got10dev/crypto/exchange/infrastructure/persistence/repository/TransactionSqlDbRepository.kt:35 | a record is in the user's newest-first list exactly when it is in the log and belongs to the user |
| Stores.PageWindow | src/main/kotlin/s4got10dev/crypto/exchange/infrastructure/persistence/repository/TransactionSqlDbRepository.kt:32-35 | page p of size s starts at p·s when that is within the n records (else at n) and ends s later or at n, whichever comes first |
| Stores.UserPage | src/main/kotlin/s4got10dev/crypto/exchange/infrastructure/persistence/repository/TransactionSqlDbRepository.kt:31-39 | a negative page or a size below one is refused with a platform exception; otherwise page and size are echoed, the total is the user's record count, and the content is exactly the page's window of the user's newest-first records |
| Stores.PageHoldsRecord | src/main/kotlin/s4got10dev/crypto/exchange/infrastructure/persistence/repository/TransactionSqlDbRepository.kt:31-39 | page p of size s holds, at position i < s, the user's record of rank p·s + i from the newest whenever that rank exists |
| Stores.RecordOnItsPage | src/main/kotlin/s4got10dev/crypto/exchange/infrastructure/persistence/repository/TransactionSqlDbRepository.kt:31-39 | every record of the user is on page k / size at position k % size, where k is its rank from the newest |
| Stores.TransactionStore.FindAllByUserId | src/main/kotlin/s4got10dev/crypto/exchange/infrastructure/persistence/repository/TransactionSqlDbRepository.kt:31-39 | a negative page or a size below one fails; otherwise the page echoes page and size, counts all the user's records and holds that page's window of them, newest first |
| Stores.TransactionStore.Save | src/main/kotlin/s4got10dev/crypto/exchange/domain/repository/TransactionRepository.kt:9 | the record is appended under its new id; nothing is updated or removed |
| OrderServices.ValidateOrder | src/main/kotlin/s4got10dev/crypto/exchange/application/service/OrderService.kt:54-70 | no error exactly when the order is placeable; any error is a bad request |
| OrderServices.ValidationOrder | src/main/kotlin/s4got10dev/crypto/exchange/application/service/OrderService.kt:54-70 | the five checks answer, in order, with their own messages; the first failure wins |
| OrderServices.BuyIgnoresCost | src/main/kotlin/s4got10dev/crypto/exchange/application/service/OrderService.kt:64-66 | a buy needs only a positive quote balance, not amount × price |
| OrderServices.SellNeedsMoreThanAmount | src/main/kotlin/s4got10dev/crypto/exchange/application/service/OrderService.kt:67-69 | a valid sell leaves strictly more base balance than the amount |
| OrderServices.Place | src/main/kotlin/s4got10dev/crypto/exchange/application/service/OrderService.kt:37-52 | a failed placement saves nothing and publishes nothing |
| OrderServices.PlaceSucceeds | src/main/kotlin/s4got10dev/crypto/exchange/application/service/OrderService.kt:37-52 | success exactly when the wallet exists, the order is valid and an id is assigned; then one OPEN row copying the command, no other row changed, and the placement record followed by the match request |
| OrderServices.PlaceKeepsRowsStored | src/main/kotlin/s4got10dev/crypto/exchange/application/service/OrderService.kt:42 | rows stay filed under their own ids with trimmed amounts |
| OrderServices.LookupOrder | src/main/kotlin/s4got10dev/crypto/exchange/application/service/OrderService.kt:72-83 | the order exactly when it exists and is the user's; "Order not found" otherwise |
| OrderServices.ForeignOrderLooksAbsent | src/main/kotlin/s4got10dev/crypto/exchange/application/service/OrderService.kt:72-83 | another user's order answers as if it did not exist |
| OrderServices.CancelOutcome | src/main/kotlin/s4got10dev/crypto/exchange/application/service/OrderService.kt:90-107 | a failed cancellation saves nothing and publishes nothing |
| OrderServices.CancelOnlyOpen | src/main/kotlin/s4got10dev/crypto/exchange/application/service/OrderService.kt:90-107 | absent is not found, not OPEN is "Order cannot be canceled", OPEN becomes CANCELED with nothing else changed and one cancellation record |
| OrderServices.CancelIgnoresOwner | src/main/kotlin/s4got10dev/crypto/exchange/application/service/OrderService.kt:90-107 | the command's user never matters |
| OrderServices.OrderService.PlaceOrder | src/main/kotlin/s4got10dev/crypto/exchange/application/service/OrderService.kt:37-52 | the store and the published events afterwards are those of `Place` |
| OrderServices.OrderService.GetOrder | src/main/kotlin/s4got10dev/crypto/exchange/application/service/OrderService.kt:72-83 | succeeds exactly when the order is stored and belongs to the user, and then returns the stored order; otherwise fails with a not-found error "Order not found" |
| OrderServices.OrderService.GetOrders | src/main/kotlin/s4got10dev/crypto/exchange/application/service/OrderService.kt:85-88 | every order of the user and only those |
| OrderServices.OrderService.CancelOrder | src/main/kotlin/s4got10dev/crypto/exchange/application/service/OrderService.kt:90-107 | the store and the published events afterwards are those of `CancelOutcome` |
| OrderServices.ListedOrdersCanBeFetched | src/main/kotlin/s4got10dev/crypto/exchange/application/service/OrderService.kt:72-88 | every order in the user's list can be fetched on its own |
| Matching.LockKey | src/main/kotlin/s4got10dev/crypto/exchange/application/service/OrderMatchingService.kt:51 | the lock name is the base currency's name, one dash, then the quote currency's name (distinct pairs get distinct names, by `LockKeyInjective`) |
| Matching.DashFollowsBase | src/main/kotlin/s4got10dev/crypto/exchange/application/service/OrderMatchingService.kt:51 | the lock name's first dash follows the base currency's name |
| Matching.LockKeyInjective | src/main/kotlin/s4got10dev/crypto/exchange/application/service/OrderMatchingService.kt:51 | different ordered pairs never share a lock |
| Matching.Affordable | src/main/kotlin/s4got10dev/crypto/exchange/application/service/OrderMatchingService.kt:100-110 | a buyer is checked against the quote amount and a seller against the base amount, both after rounding to 18 digits; a side whose balance covers what it pays always passes |
| Matching.AffordableUpToRounding | src/main/kotlin/s4got10dev/crypto/exchange/application/service/OrderMatchingService.kt:100-110 | an affordable side holds what it pays less at most 10^-18 |
| Matching.AffordableYetShort | src/main/kotlin/s4got10dev/crypto/exchange/application/service/OrderMatchingService.kt:107 | a balance of 4·10^-19 passes for a trade of 4.9·10^-19 |
| Matching.Matchable | src/main/kotlin/s4got10dev/crypto/exchange/application/service/OrderMatchingService.kt:68 | the guard of the inner loop: both orders are OPEN and both amounts are above zero; `MatchPairProgresses` needs exactly this, and `Step` attempts a pair only when it holds |
| Matching.MatchPair | src/main/kotlin/s4got10dev/crypto/exchange/application/service/OrderMatchingService.kt:75-98 | `matchOrder` on values; what it does in each case is stated by `BuyerFailureCancelsBuy`, `SellerFailureCancelsSell`, `TradeFillsSmallerSide`, `TradeEvents`, `TradeWallets`, `TradeConserves` and `MatchPairProgresses` |
| Matching.Settle | src/main/kotlin/s4got10dev/crypto/exchange/application/service/OrderMatchingService.kt:113-115 | an order whose remainder rounds to zero becomes FILLED; otherwise its status stays |
| Matching.BuyerFailureCancelsBuy | src/main/kotlin/s4got10dev/crypto/exchange/application/service/OrderMatchingService.kt:80-84 | a buyer without wallet or funds has only the buy order cancelled and saved |
| Matching.SellerFailureCancelsSell | src/main/kotlin/s4got10dev/crypto/exchange/application/service/OrderMatchingService.kt:85-89 | a paying buyer and a seller without wallet or funds: only the sell order is cancelled |
| Matching.TradeFillsSmallerSide | src/main/kotlin/s4got10dev/crypto/exchange/application/service/OrderMatchingService.kt:78-91 | both amounts drop by the smaller one; FILLED exactly when the remainder rounds to zero; at least one is FILLED |
| Matching.FillEvent | src/main/kotlin/s4got10dev/crypto/exchange/application/service/OrderMatchingService.kt:118-122 | a transaction event of the order's user: ORDER_FILLED when the order is FILLED, ORDER_PARTIALLY_FILLED otherwise, whose metadata is exactly the order id and the traded base amount |
| Matching.TradeEvents | src/main/kotlin/s4got10dev/crypto/exchange/application/service/OrderMatchingService.kt:96-122 | exactly one fill event per order, buyer first, each carrying the traded base amount |
| Matching.TradeWallets | src/main/kotlin/s4got10dev/crypto/exchange/application/service/OrderMatchingService.kt:92-97 | the buyer's wallet and then the seller's are saved with their new balances |
| Matching.TradeConserves | src/main/kotlin/s4got10dev/crypto/exchange/application/service/OrderMatchingService.kt:90-95 | between two wallets every currency's total is unchanged |
| Matching.SelfTradeKeepsSellerSide | src/main/kotlin/s4got10dev/crypto/exchange/application/service/OrderMatchingService.kt:76-97 | with one wallet on both sides the seller's save wins and the base amount is lost |
| Matching.TradeBalanceFloor | src/main/kotlin/s4got10dev/crypto/exchange/application/service/OrderMatchingService.kt:90-110 | after a trade the paying balances are at least -10^-18 |
| Matching.Step | src/main/kotlin/s4got10dev/crypto/exchange/application/service/OrderMatchingService.kt:68-69 | one attempt keeps both order lists' lengths |
| Matching.Run | src/main/kotlin/s4got10dev/crypto/exchange/application/service/OrderMatchingService.kt:65-73 | the pass from pair (i, j) onwards never adds or drops an order from either list |
| Matching.MatchAll | src/main/kotlin/s4got10dev/crypto/exchange/application/service/OrderMatchingService.kt:65-73 | a whole pass keeps every order the same order, leaves orders that were not open unchanged, only lowers amounts and keeps them non-negative, and only appends events; `MatchOrders` is proved equal to it |
| Matching.RunUnfoldsStep | src/main/kotlin/s4got10dev/crypto/exchange/application/service/OrderMatchingService.kt:67-71 | the inner loop takes one sell order at a time |
| Matching.RunUnfoldsRow | src/main/kotlin/s4got10dev/crypto/exchange/application/service/OrderMatchingService.kt:66-72 | the outer loop takes one buy order at a time |
| Matching.RunEnds | src/main/kotlin/s4got10dev/crypto/exchange/application/service/OrderMatchingService.kt:66-72 | a pass past the last buy order changes nothing |
| Matching.MatchPairProgresses | src/main/kotlin/s4got10dev/crypto/exchange/application/service/OrderMatchingService.kt:75-98 | an attempt keeps each order the same order, only lowers amounts and only appends events |
| Matching.StepProgresses | src/main/kotlin/s4got10dev/crypto/exchange/application/service/OrderMatchingService.kt:68-69 | a skipped or attempted pair moves the state forward |
| Matching.RunProgresses | src/main/kotlin/s4got10dev/crypto/exchange/application/service/OrderMatchingService.kt:65-73 | over a pass, closed orders stay as they were, amounts only decrease and stay non-negative, and events are appended |
| Matching.OrderMatchingService.SaveTrade | src/main/kotlin/s4got10dev/crypto/exchange/application/service/OrderMatchingService.kt:112-123 | the status is settled, order and wallet saved, and the fill event published |
| Matching.OrderMatchingService.Cancel | src/main/kotlin/s4got10dev/crypto/exchange/application/service/OrderMatchingService.kt:81-82 | the order becomes CANCELED and is saved |
| Matching.OrderMatchingService.Execute | src/main/kotlin/s4got10dev/crypto/exchange/application/service/OrderMatchingService.kt:90-97 | both amounts reduced, both wallets updated, both sides saved, two fill events |
| Matching.OrderMatchingService.MatchOrder | src/main/kotlin/s4got10dev/crypto/exchange/application/service/OrderMatchingService.kt:75-98 | orders, stores and events afterwards are those of `MatchPair` |
| Matching.OrderMatchingService.Attempt | src/main/kotlin/s4got10dev/crypto/exchange/application/service/OrderMatchingService.kt:67-71 | the attempt on (i, j) is `Step`, and the rest of the pass is unchanged by it |
| Matching.OrderMatchingService.MatchRow | src/main/kotlin/s4got10dev/crypto/exchange/application/service/OrderMatchingService.kt:66-72 | one buy order against every sell order advances the pass by one row |
| Matching.OrderMatchingService.MatchOrders | src/main/kotlin/s4got10dev/crypto/exchange/application/service/OrderMatchingService.kt:65-73 | the objects, stores and events afterwards are those of the whole buy-major pass |
| WalletServices.PaymentGateway.ReceiveMoney | src/main/kotlin/s4got10dev/crypto/exchange/infrastructure/api/payment/PaymentService.kt:12 | the call is recorded and its answer is the gateway's |
| WalletServices.PaymentGateway.SendMoney | src/main/kotlin/s4got10dev/crypto/exchange/infrastructure/api/payment/PaymentService.kt:13 | the call is recorded and its answer is the gateway's |
| WalletServices.Create | src/main/kotlin/s4got10dev/crypto/exchange/application/service/WalletService.kt:32-50 | a failed creation saves nothing |
| WalletServices.CreateSucceeds | src/main/kotlin/s4got10dev/crypto/exchange/application/service/WalletService.kt:32-50 | success exactly when the name is free and an id is assigned; a taken name is a bad request; the new row reads zero everywhere |
| WalletServices.CreateKeepsInvariants | src/main/kotlin/s4got10dev/crypto/exchange/application/service/WalletService.kt:34-41 | rows stay filed under their ids, names stay unique per user, balances stay non-negative |
| WalletServices.LookupWallet | src/main/kotlin/s4got10dev/crypto/exchange/application/service/WalletService.kt:52-63 | the wallet exactly when it exists and is the user's; the same not-found message otherwise |
| WalletServices.ForeignWalletLooksAbsent | src/main/kotlin/s4got10dev/crypto/exchange/application/service/WalletService.kt:52-63 | another user's wallet answers as if it did not exist |
| WalletServices.DepositOutcome | src/main/kotlin/s4got10dev/crypto/exchange/application/service/WalletService.kt:70-90 | a failed deposit saves nothing and publishes nothing |
| WalletServices.DepositOnlyOnPayment | src/main/kotlin/s4got10dev/crypto/exchange/application/service/WalletService.kt:70-90 | success exactly when the wallet exists and the gateway accepts; then the currency grows by the amount, nothing else changes, one DEPOSIT record |
| WalletServices.DepositKeepsNonNegative | src/main/kotlin/s4got10dev/crypto/exchange/application/service/WalletService.kt:78-80 | a deposit of a non-negative amount keeps every balance non-negative |
| WalletServices.WithdrawOutcome | src/main/kotlin/s4got10dev/crypto/exchange/application/service/WalletService.kt:92-117 | a failed withdrawal saves nothing and publishes nothing |
| WalletServices.WithdrawChecksFundsFirst | src/main/kotlin/s4got10dev/crypto/exchange/application/service/WalletService.kt:92-117 | insufficient funds is a bad request before the gateway is called; success exactly with funds and acceptance; then the amount is subtracted and one WITHDRAWAL record follows |
| WalletServices.WithdrawKeepsNonNegative | src/main/kotlin/s4got10dev/crypto/exchange/application/service/WalletService.kt:97-106 | a withdrawal never makes a non-negative balance negative |
| WalletServices.WithdrawWholeBalance | src/main/kotlin/s4got10dev/crypto/exchange/application/service/WalletService.kt:97-106 | withdrawing exactly the balance is allowed and leaves zero |
| WalletServices.DepositThenWithdrawRestores | src/main/kotlin/s4got10dev/crypto/exchange/application/service/WalletService.kt:70-117 | an accepted deposit then an accepted withdrawal of the same amount restore the balances |
| WalletServices.WalletService.CreateWallet | src/main/kotlin/s4got10dev/crypto/exchange/application/service/WalletService.kt:32-50 | the answer and the rows afterwards are those of `Create` |
| WalletServices.WalletService.GetWallet | src/main/kotlin/s4got10dev/crypto/exchange/application/service/WalletService.kt:52-63 | only the user's own stored wallet is returned |
| WalletServices.WalletService.GetWallets | src/main/kotlin/s4got10dev/crypto/exchange/application/service/WalletService.kt:65-68 | every wallet of the user and only those |
| WalletServices.WalletService.Deposit | src/main/kotlin/s4got10dev/crypto/exchange/application/service/WalletService.kt:70-90 | answer, rows, events and gateway calls afterwards are those of `DepositOutcome` |
| WalletServices.WalletService.Withdraw | src/main/kotlin/s4got10dev/crypto/exchange/application/service/WalletService.kt:92-117 | answer, rows, events and gateway calls afterwards are those of `WithdrawOutcome` |
| TransactionServices.RecordOf | src/main/kotlin/s4got10dev/crypto/exchange/application/service/TransactionService.kt:20-26 | the record has no id and no creation time yet |
| TransactionServices.AppendedRecordComesFirst | src/main/kotlin/s4got10dev/crypto/exchange/application/service/TransactionService.kt:27 | an appended record comes first in its user's list; other users' lists are unchanged |
| TransactionServices.RecordedEventIsNewest | src/main/kotlin/s4got10dev/crypto/exchange/application/service/TransactionService.kt:18-33 | after an event is handled, the first page of its user starts with its record and the total grows by one |
| TransactionServices.OtherUsersUnaffected | src/main/kotlin/s4got10dev/crypto/exchange/application/service/TransactionService.kt:18-33 | handling an event changes no other user's pages |
| TransactionServices.DepositIsRecorded | src/main/kotlin/s4got10dev/crypto/exchange/domain/usecase/transaction.kt:21-29 | a deposit's record belongs to the owner, names the wallet, is DEPOSIT and notes amount and currency |
| TransactionServices.WithdrawalIsRecorded | src/main/kotlin/s4got10dev/crypto/exchange/domain/usecase/transaction.kt:31-39 | a withdrawal's record belongs to the owner, names the wallet, is WITHDRAWAL and notes amount and currency |
| TransactionServices.TransactionService.HandleTransactionEvent | src/main/kotlin/s4got10dev/crypto/exchange/application/service/TransactionService.kt:18-28 | exactly one record, copied from the event, is appended for any kind of event |
| TransactionServices.TransactionService.GetTransactions | src/main/kotlin/s4got10dev/crypto/exchange/application/service/TransactionService.kt:30-33 | refused exactly for a negative page or a size below one; otherwise page, size and the user's total are passed through and the content is that page's window of the user's records, newest first |
| UserServices.Register | src/main/kotlin/s4got10dev/crypto/exchange/application/service/UserService.kt:21-37 | a failed registration saves nothing |
| UserServices.RegisterSucceeds | src/main/kotlin/s4got10dev/crypto/exchange/application/service/UserService.kt:21-37 | success exactly when username and email are free and an id is assigned; the event carries the id and the row copies the command |
| UserServices.RegisterKeepsInvariants | src/main/kotlin/s4got10dev/crypto/exchange/application/service/UserService.kt:23-28 | users stay filed under their ids and usernames and emails stay unique |
| UserServices.LookupUser | src/main/kotlin/s4got10dev/crypto/exchange/application/service/UserService.kt:39-50 | the user exactly when stored under the id and carrying it; "User '<id>' not found" otherwise |
| UserServices.RegisteredUserFound | src/main/kotlin/s4got10dev/crypto/exchange/application/service/UserService.kt:21-50 | a new user can be fetched by the id the registration returns |
| UserServices.LookupFailsOnlyWhenAbsent | src/main/kotlin/s4got10dev/crypto/exchange/application/service/UserService.kt:39-50 | with users filed under their ids, lookup fails exactly for an unknown id |
| UserServices.UserService.RegisterUser | src/main/kotlin/s4got10dev/crypto/exchange/application/service/UserService.kt:21-37 | the answer and the rows afterwards are those of `Register` |
| UserServices.UserService.GetUser | src/main/kotlin/s4got10dev/crypto/exchange/application/service/UserService.kt:39-50 | only a stored user carrying the asked id is returned |
| Adapters.Present | src/main/kotlin/s4got10dev/crypto/exchange/interfaces/rest/adapter/WalletAdapter.kt:30 | exactly the currencies present in the list |
| Adapters.PresentAppend | src/main/kotlin/s4got10dev/crypto/exchange/interfaces/rest/adapter/WalletAdapter.kt:30 | dropping nulls keeps the list's order |
| Adapters.CreateWalletCommandOf | src/main/kotlin/s4got10dev/crypto/exchange/interfaces/rest/adapter/WalletAdapter.kt:26-38 | a command carries the given user and name |
| Adapters.CreateWalletChecks | src/main/kotlin/s4got10dev/crypto/exchange/interfaces/rest/adapter/WalletAdapter.kt:26-38 | validator first, then "At least one currency is required", then missing user or name; a command keeps the present currencies in order |
| Adapters.CreateWalletRoundTrip | src/main/kotlin/s4got10dev/crypto/exchange/interfaces/rest/adapter/WalletAdapter.kt:26-38 | the request a command could come from gives the command back |
| Adapters.WalletQueryOf | src/main/kotlin/s4got10dev/crypto/exchange/interfaces/rest/adapter/WalletAdapter.kt:40-49 | "Invalid user id" before "Invalid wallet id"; otherwise the query of the two |
| Adapters.WalletsQueryOf | src/main/kotlin/s4got10dev/crypto/exchange/interfaces/rest/adapter/WalletAdapter.kt:51-56 | "Invalid user id" without a user; otherwise the user's query |
| Adapters.PaymentFields | src/main/kotlin/s4got10dev/crypto/exchange/interfaces/rest/adapter/WalletAdapter.kt:58-68 | an accepted amount is positive |
| Adapters.PaymentChecks | src/main/kotlin/s4got10dev/crypto/exchange/interfaces/rest/adapter/WalletAdapter.kt:58-68 | validator first, then "Required fields are missing", then the amount violation; success exactly otherwise |
| Adapters.DepositCommandOf | src/main/kotlin/s4got10dev/crypto/exchange/interfaces/rest/adapter/WalletAdapter.kt:58-75 | a command has a positive amount and copies the four fields |
| Adapters.WithdrawCommandOf | src/main/kotlin/s4got10dev/crypto/exchange/interfaces/rest/adapter/WalletAdapter.kt:77-94 | a command has a positive amount and copies the four fields |
| Adapters.DepositRoundTrip | src/main/kotlin/s4got10dev/crypto/exchange/interfaces/rest/adapter/WalletAdapter.kt:58-75 | every positive deposit command is what its own request becomes |
| Adapters.WithdrawRoundTrip | src/main/kotlin/s4got10dev/crypto/exchange/interfaces/rest/adapter/WalletAdapter.kt:77-94 | every positive withdraw command is what its own request becomes |
| Adapters.PlaceOrderCommandOf | src/main/kotlin/s4got10dev/crypto/exchange/interfaces/rest/adapter/OrderAdapter.kt:21-38 | validator first; success exactly when all six fields are present; otherwise "Required fields are missing" |
| Adapters.PlaceOrderRoundTrip | src/main/kotlin/s4got10dev/crypto/exchange/interfaces/rest/adapter/OrderAdapter.kt:21-38 | every command, even with a non-positive amount or equal currencies, passes unchanged |
| Adapters.OrderIds | src/main/kotlin/s4got10dev/crypto/exchange/interfaces/rest/adapter/OrderAdapter.kt:40-49 | "Invalid user id" before "Invalid order id" |
| Adapters.OrderQueryOf | src/main/kotlin/s4got10dev/crypto/exchange/interfaces/rest/adapter/OrderAdapter.kt:40-49 | the query of the two ids when both are there |
| Adapters.OrdersQueryOf | src/main/kotlin/s4got10dev/crypto/exchange/interfaces/rest/adapter/OrderAdapter.kt:51-56 | "Invalid user id" without a user; otherwise the user's query |
| Adapters.CancelOrderCommandOf | src/main/kotlin/s4got10dev/crypto/exchange/interfaces/rest/adapter/OrderAdapter.kt:58-70 | the command of the two ids when both are there |
| Adapters.TransactionsQueryOf | src/main/kotlin/s4got10dev/crypto/exchange/interfaces/rest/adapter/TransactionAdapter.kt:13-21 | "Invalid user id" first, then "Invalid page or size" for a negative page or size; otherwise user, page and size copied |
| Adapters.ZeroSizePassesAdapterOnly | src/main/kotlin/s4got10dev/crypto/exchange/interfaces/rest/adapter/TransactionAdapter.kt:17 | a size of zero passes the adapter and is then refused by the page request |
| Adapters.AcceptedQueryPages | src/main/kotlin/s4got10dev/crypto/exchange/interfaces/rest/adapter/TransactionAdapter.kt:13-21 | an accepted query with a positive size pages only the user's records |

## Left out

- Numbers.Scaled: the `null` receiver of `scaled` (numbers.kt:15-17, which gives `ZERO`) is not modelled. Its only nullable call site is `wallet?.getBalance(...).scaled()` at `OrderMatchingService.kt:107-108`, and `validateOrder` is called only from the short-circuit tests `wallet == null || !validateOrder(...)` at lines 80 and 85, which cancel the order before it for a missing wallet, so the receiver is never `null` there (`Wallet.getBalance` itself never returns `null`: a missing currency gives `ZERO`, `Wallet.kt:17-19`).
- Concurrency: the coroutine launch, the per-pair mutex map and its lock are not modelled. A matching pass is one sequential method, and the lock name is modelled only as `Matching.LockKey`.
- The price oracle is a parameter. `PricingService`'s lookup table, and the exception it throws for an unknown pair, are not modelled.
- The payment gateway's answer is a boolean parameter. `MockPaymentService`'s refusal of amounts from 100 to 200 is not modelled.
- Reactor, Spring transactions and event dispatch are replaced by direct calls. A listener such as the transaction log is a separate method, which is called with the events the services publish.
- Repository saves always succeed, except that an id may fail to be assigned. Ids the database assigns are parameters.
- `createdAt`, `updatedAt` and `version` are carried unchanged. Optimistic locking and timestamping in the database layer are not modelled.
- SQL ordering: a user's transactions are newest first by position in the log, not by a timestamp.
- `findAllByBaseCurrencyAndQuoteCurrencyAndType` is not modelled. The pass takes the two order lists as given.
- Jackson wallet and transaction mappers, the HTTP controllers, the error web handler, authentication, token handling and password encoding are not modelled.
- `UserAdapter` and `AuthAdapter` are not modelled.
- The bean validator's verdict and the outcome of `UUID.fromString` are inputs of the adapters. The validation rules themselves and UUID parsing are not modelled.
- Kotlin's 32-bit `Int` page and size are unbounded integers.
- Identifiers are numbers below 2^128. Only their printed form matters to the model.
- Suspend repositories: the repository implementations are `suspend` functions (`WalletSqlDbRepository.save` among them), so the model takes every repository call as completed when it returns. This includes the wallet save in `saveTrade`, which is not awaited as a `Mono` at `OrderMatchingService.kt:117`.
- Stores.UserPage: `PageRequest.of` is modelled only by the two preconditions it checks. Its exception messages stand for the platform's.
