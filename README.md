# bank-rest ledger core in Dafny

A model of the card ledger of the bank-rest service: cards with balances and a
lifecycle (ACTIVE, BLOCKED), deposits and withdrawals, transfers between cards, and
block requests that an administrator approves. Also modelled: the JPA lifecycle hooks
of the four entities, the `TransferValidator`, the Bean-Validation constraints on the
three request bodies, and the sort-parameter parsing of `PageableUtils`.

How it is built:

- `base.dfy` holds the shared vocabulary: ids, money in cents, the status enums and the exceptions.
- `entities.dfy` holds the entity classes (`Card`, `Transaction`, `Transfer`, `CardBlock`). The hooks update their fields in place. The same hooks are also given as functions on rows.
- `store.dfy` is the database: one map per table, with its identity sequences. A service method loads managed entity objects, updates them, and writes them back. The write-back follows Hibernate's dirty check, so @PreUpdate runs only when a row changed.
- `ledger.dfy` holds the value view of the store, the invariant (unique card numbers, at most one block request per card, no PENDING request processed), and sums of balances.
- Each service module defines a pure step function (`DepositStep`, `TransferStep`, `ApproveStep`, ...) with its own contract. The imperative method is proved to leave the store exactly as the step says. Lemmas relate the steps to one another.
- `transfer_validator.dfy`, `requests.dfy`, `pageable_utils.dfy` and `text.dfy` are pure. `text.dfy` holds the `java.lang.String` operations the parser relies on.

The model keeps the source's deliberate looseness:

- deposits ignore the card status;
- transfers check neither status nor same card;
- `activateCard` accepts any card that is not ACTIVE;
- approval re-blocks a BLOCKED card without error;
- the validator is not applied by any annotation, so `createTransfer` accepts transfers it would reject.

Clocks are parameters: `now` is a timestamp and `today` a date.

## Model

| member | source | states |
|---|---|---|
| Entities.CardPersisted | src/main/java/com/example/bankcards/entity/Card.java:84-88 | both timestamps become `now`, the one clock value of the call; every other field is unchanged |
| Entities.CardUpdated | src/main/java/com/example/bankcards/entity/Card.java:93-96 | only `updatedAt` becomes `now`; `createdAt` and all other fields are unchanged |
| Entities.Flushed | src/main/java/com/example/bankcards/entity/Card.java:93-96 | an unchanged managed card is written back as loaded; a changed one gets `updatedAt = now` and otherwise its current fields |
| Entities.TransactionPersisted | src/main/java/com/example/bankcards/entity/Transaction.java:76-81 | `createdAt` is always set afterwards, filled with `now` only when it was null; nothing else changes |
| Entities.TransferPersisted | src/main/java/com/example/bankcards/entity/Transfer.java:82-90 | `createdAt` and status are always set afterwards; a set value is never overridden; a null status becomes PENDING |
| Entities.BlockPersisted | src/main/java/com/example/bankcards/entity/CardBlock.java:53-57 | status is PENDING and `requestedAt` is `now` whatever they held; nothing else changes |
| Entities.BlockUpdated | src/main/java/com/example/bankcards/entity/CardBlock.java:59-64 | `processedAt` becomes `now` exactly when the status is not PENDING; status, card, user and `requestedAt` never change |
| Entities.Card.constructor | src/main/java/com/example/bankcards/entity/Card.java:69-73 | a new card has balance 0, status ACTIVE and no timestamps |
| Entities.Card.OnCreate | src/main/java/com/example/bankcards/entity/Card.java:84-88 | the object's row afterwards is `CardPersisted` of its row before |
| Entities.Card.OnUpdate | src/main/java/com/example/bankcards/entity/Card.java:93-96 | the object's row afterwards is `CardUpdated` of its row before |
| Entities.Transaction.constructor | src/main/java/com/example/bankcards/entity/Transaction.java:66-71 | card, type and amount are stored as given and `createdAt` is set |
| Entities.Transaction.OnCreate | src/main/java/com/example/bankcards/entity/Transaction.java:76-81 | the object's row afterwards is `TransactionPersisted` of its row before |
| Entities.Transfer.constructor | src/main/java/com/example/bankcards/entity/Transfer.java:71-77 | both cards, the amount and the status are stored as given and `createdAt` is set |
| Entities.Transfer.OnCreate | src/main/java/com/example/bankcards/entity/Transfer.java:82-90 | the object's row afterwards is `TransferPersisted` of its row before |
| Entities.CardBlock.constructor | src/main/java/com/example/bankcards/service/CardBlockServiceImpl.java:54-56 | a new request holds the card and user it was given; status and timestamps are null |
| Entities.CardBlock.OnCreate | src/main/java/com/example/bankcards/entity/CardBlock.java:53-57 | the object's row afterwards is `BlockPersisted` of its row before |
| Entities.CardBlock.OnUpdate | src/main/java/com/example/bankcards/entity/CardBlock.java:59-64 | the object's row afterwards is `BlockUpdated` of its row before |
| Store.Store.LoadCard | src/main/java/com/example/bankcards/service/CardServiceImpl.java:36-37 | a managed card holding the stored row, or none exactly when the id is not stored |
| Store.Store.InsertCard | src/main/java/com/example/bankcards/service/CardServiceImpl.java:110 | runs @PrePersist and adds the row under the next card id; numbers stay unique and the invariant holds |
| Store.Store.FlushCard | src/main/java/com/example/bankcards/service/TransactionServiceImpl.java:80 | writes the card back through the dirty check; only that row changes and the invariant holds |
| Store.Store.DeleteCard | src/main/java/com/example/bankcards/service/CardServiceImpl.java:149 | removes exactly that row |
| Store.Store.InsertTransaction | src/main/java/com/example/bankcards/service/TransactionServiceImpl.java:82-83 | runs @PrePersist and adds the row under the next transaction id |
| Store.Store.InsertTransfer | src/main/java/com/example/bankcards/service/TransferServiceImpl.java:63 | runs @PrePersist and adds the row under the next transfer id |
| Store.Store.InsertBlock | src/main/java/com/example/bankcards/service/CardBlockServiceImpl.java:58 | runs @PrePersist and adds a PENDING request under the next id; at most one request per card holds afterwards |
| Store.Store.FlushBlock | src/main/java/com/example/bankcards/service/CardBlockServiceImpl.java:107-109 | writes the request back, running @PreUpdate when it changed; only that row changes |
| Ledger.UserBalanceWithoutCards | src/main/java/com/example/bankcards/service/CardServiceImpl.java:70-73 | a user who owns no card has balance ZERO |
| TransactionService.DepositStep | src/main/java/com/example/bankcards/service/TransactionServiceImpl.java:75-84 | NotFound without change for an unknown card; otherwise success whatever the card's status, exactly `amount` added to that card, its other fields kept and `updatedAt` set to `now` unless the amount is 0 (the row is then unchanged and not updated), other cards unchanged, a DEPOSIT record with the amount; the invariant is kept, and so is non-negativity for a non-negative amount |
| TransactionService.WithdrawStep | src/main/java/com/example/bankcards/service/TransactionServiceImpl.java:88-101 | NotFound, then InsufficientFunds without change when balance < amount; success iff balance >= amount, exactly `amount` taken off, the card's other fields kept and `updatedAt` set to `now` unless the amount is 0, other cards unchanged, withdrawing the whole balance leaves 0, a WITHDRAW record; non-negative balances stay non-negative whatever the outcome |
| TransactionService.DepositThenWithdraw | src/main/java/com/example/bankcards/service/TransactionServiceImpl.java:79-96 | a deposit followed by a withdrawal of the same amount restores every balance and records both transactions |
| TransactionService.DepositBalances | src/main/java/com/example/bankcards/service/TransactionServiceImpl.java:79-80 | a deposit raises the total and the owner's balance by `amount`, no one else's |
| TransactionService.WithdrawBalances | src/main/java/com/example/bankcards/service/TransactionServiceImpl.java:92-97 | a successful withdrawal lowers the total and the owner's balance by `amount`; a failed one changes nothing |
| TransactionService.Deposit | src/main/java/com/example/bankcards/service/TransactionServiceImpl.java:75-84 | the store afterwards is `DepositStep` of the store before; the returned Transaction is the new stored row |
| TransactionService.Withdraw | src/main/java/com/example/bankcards/service/TransactionServiceImpl.java:88-101 | the store afterwards is `WithdrawStep` of the store before, error for error |
| TransferService.TransferStep | src/main/java/com/example/bankcards/service/TransferServiceImpl.java:41-64 | NotFound for the source before the target is looked up; IllegalArgument on balance < amount, nothing changed; on success between distinct cards a debit and credit of `amount` with the source staying >= 0, every other field of both cards kept and both `updatedAt` set to `now` unless the amount is 0, one card sent to itself ends unchanged, a COMPLETED record; no status or same-card check |
| TransferService.TransferBalances | src/main/java/com/example/bankcards/service/TransferServiceImpl.java:55-59 | the total over all cards is conserved, and each user's balance changes by what their cards sent and received |
| TransferService.GetTransferById | src/main/java/com/example/bankcards/service/TransferServiceImpl.java:35-39 | the stored transfer, or NotFound exactly when the id is unknown |
| TransferService.CreatedTransferIsCompleted | src/main/java/com/example/bankcards/service/TransferServiceImpl.java:53-63 | the transfer a successful call stores reads back with both cards and the amount, COMPLETED and never PENDING |
| TransferService.MoveBalances | src/main/java/com/example/bankcards/service/TransferServiceImpl.java:55-59 | the debit and credit on the managed (possibly aliased) cards and their two saves leave exactly the card rows of `TransferStep` |
| TransferService.CreateTransfer | src/main/java/com/example/bankcards/service/TransferServiceImpl.java:41-64 | the store afterwards is `TransferStep` of the store before, error for error; the returned Transfer is the stored row |
| CardService.FindById | src/main/java/com/example/bankcards/service/CardServiceImpl.java:34-38 | the stored card, or NotFound exactly when the id is unknown |
| CardService.GetUserBalance | src/main/java/com/example/bankcards/service/CardServiceImpl.java:69-73 | ZERO for a user without cards; between 0 and the total while no balance is negative |
| CardService.CreateCardStep | src/main/java/com/example/bankcards/service/CardServiceImpl.java:94-111 | NotFound for an unknown user, IllegalArgument for a number in use; otherwise a new ACTIVE card with exactly the requested fields, nothing else changed, unique numbers kept |
| CardService.BlockStep | src/main/java/com/example/bankcards/service/CardServiceImpl.java:113-124 | NotFound; IllegalState on an already BLOCKED card; otherwise BLOCKED with balance and other fields untouched |
| CardService.ActivateStep | src/main/java/com/example/bankcards/service/CardServiceImpl.java:126-141 | NotFound; IllegalState when ACTIVE; IllegalState when the expiry is strictly before today; success iff not ACTIVE and expiry >= today |
| CardService.DeleteStep | src/main/java/com/example/bankcards/service/CardServiceImpl.java:143-150 | NotFound without change for an unknown id; otherwise exactly that card is removed |
| CardService.UserBalanceBounds | src/main/java/com/example/bankcards/service/CardServiceImpl.java:69-73 | the user balance is ZERO without cards and bounded by the total while balances are non-negative |
| CardService.DeleteThenFind | src/main/java/com/example/bankcards/service/CardServiceImpl.java:143-150 | after a delete, `findById` and a second delete both fail with NotFound |
| CardService.DeleteBalances | src/main/java/com/example/bankcards/service/CardServiceImpl.java:143-150 | a delete takes the card's balance out of the total and out of its owner's balance |
| CardService.CreateThenFind | src/main/java/com/example/bankcards/service/CardServiceImpl.java:94-111 | a created card is found under its id with the requested fields, and its number can no longer be used |
| CardService.CreateBalances | src/main/java/com/example/bankcards/service/CardServiceImpl.java:103-110 | a created card adds its balance to the total and to its owner's balance |
| CardService.BlockThenActivate | src/main/java/com/example/bankcards/service/CardServiceImpl.java:113-141 | blocking then activating an unexpired ACTIVE card restores it except for `updatedAt` |
| CardService.StatusChangesKeepBalances | src/main/java/com/example/bankcards/service/CardServiceImpl.java:113-141 | blocking and activating leave every user's balance unchanged |
| CardService.FindCard | src/main/java/com/example/bankcards/service/CardServiceImpl.java:34-38 | the loaded card holds the row `FindById` returns, or the same error |
| CardService.CreateCard | src/main/java/com/example/bankcards/service/CardServiceImpl.java:94-111 | the store afterwards is `CreateCardStep` of the store before, error for error |
| CardService.BlockCardById | src/main/java/com/example/bankcards/service/CardServiceImpl.java:113-124 | the store afterwards is `BlockStep` of the store before, error for error |
| CardService.ActivateCard | src/main/java/com/example/bankcards/service/CardServiceImpl.java:126-141 | the store afterwards is `ActivateStep` of the store before, error for error |
| CardService.DeleteById | src/main/java/com/example/bankcards/service/CardServiceImpl.java:143-150 | the store afterwards is `DeleteStep` of the store before, error for error |
| CardBlockService.CreateRequestStep | src/main/java/com/example/bankcards/service/CardBlockServiceImpl.java:40-59 | NotFound for a missing card or owner; IllegalState when any request names the card; otherwise one PENDING request for the card's owner, stamped now, card table unchanged; at most one request per card kept |
| CardBlockService.ApproveStep | src/main/java/com/example/bankcards/service/CardBlockServiceImpl.java:93-110 | NotFound for an unknown request; IllegalState without change when not PENDING; otherwise request APPROVED with `processedAt`, card BLOCKED (already BLOCKED: row unchanged), nothing else changed |
| CardBlockService.RequestOnlyOnce | src/main/java/com/example/bankcards/service/CardBlockServiceImpl.java:48-52 | after one request, every later request for the card is refused, before and after approval |
| CardBlockService.CreateThenApprove | src/main/java/com/example/bankcards/service/CardBlockServiceImpl.java:40-110 | approving a fresh request blocks the card and records both timestamps; approving it again is refused without change |
| CardBlockService.BlockRequestsKeepBalances | src/main/java/com/example/bankcards/service/CardBlockServiceImpl.java:40-110 | neither operation changes any user's balance |
| CardBlockService.CreateBlockRequest | src/main/java/com/example/bankcards/service/CardBlockServiceImpl.java:40-59 | the store afterwards is `CreateRequestStep` of the store before, error for error |
| CardBlockService.ApproveBlockRequest | src/main/java/com/example/bankcards/service/CardBlockServiceImpl.java:93-110 | the store afterwards is `ApproveStep` of the store before, error for error |
| JavaText.Utf16Length | src/main/java/com/example/bankcards/entity/CreateCardRequest.java:24 | `length()`: between one and two code units per character |
| JavaText.BmpLength | src/main/java/com/example/bankcards/entity/CreateCardRequest.java:24 | within the Basic Multilingual Plane `length()` is the number of characters |
| JavaText.Trim | src/main/java/com/example/bankcards/util/PageableUtils.java:35-39 | the slice without leading and trailing characters at or below U+0020; empty iff every character is one |
| JavaText.TrimIdempotent | src/main/java/com/example/bankcards/util/PageableUtils.java:39-47 | trimming a trimmed string changes nothing |
| JavaText.SplitAtFirstComma | src/main/java/com/example/bankcards/util/PageableUtils.java:40 | one part iff there is no comma; otherwise the text before the first comma and everything after it |
| JavaText.UpperCase | src/main/java/com/example/bankcards/util/PageableUtils.java:55 | upper-cases the letters that can spell ASC or DESC, including long s |
| PageableUtils.PageRequestOf | src/main/java/com/example/bankcards/util/PageableUtils.java:18 | IllegalArgument exactly when page < 0 or size < 1 |
| PageableUtils.DirectionFromString | src/main/java/com/example/bankcards/util/PageableUtils.java:55 | ASC or DESC exactly when the string equals that word ignoring case; otherwise none |
| PageableUtils.DirectionWords | src/main/java/com/example/bankcards/util/PageableUtils.java:53-55 | "asc" and "desc" name the two directions |
| PageableUtils.ParseSortOrder | src/main/java/com/example/bankcards/util/PageableUtils.java:34-62 | null for a blank entry; (ASC, trimmed entry) without a comma; any order holds a non-empty trimmed property |
| PageableUtils.CollectOrders | src/main/java/com/example/bankcards/util/PageableUtils.java:21-25 | at most one order per entry, each with a valid property |
| PageableUtils.OrdersOf | src/main/java/com/example/bankcards/util/PageableUtils.java:22-24 | what one entry contributes: nothing or one order |
| PageableUtils.CreatePageable | src/main/java/com/example/bankcards/util/PageableUtils.java:16-32 | unsorted for a null or empty array or when no order survives; otherwise sorted by the collected orders; fails iff `PageRequest.of` does |
| PageableUtils.CollectAppend | src/main/java/com/example/bankcards/util/PageableUtils.java:21-25 | orders of a concatenation are the concatenation of the orders, so surviving orders keep their input order |
| PageableUtils.BlankEntriesDropped | src/main/java/com/example/bankcards/util/PageableUtils.java:22 | a null or blank entry contributes nothing, wherever it stands |
| PageableUtils.AllBlankIsUnsorted | src/main/java/com/example/bankcards/util/PageableUtils.java:21-29 | an array of only null or blank entries gives an unsorted request |
| PageableUtils.AllBlankCollectsNothing | src/main/java/com/example/bankcards/util/PageableUtils.java:22-25 | an array of only null or blank entries collects no order |
| PageableUtils.ParseEntry | src/main/java/com/example/bankcards/util/PageableUtils.java:39-40 | "field,direction" needs no trimming and splits into field and direction |
| PageableUtils.CommaIsNoDirection | src/main/java/com/example/bankcards/util/PageableUtils.java:53-55 | a direction string holding a comma is rejected by `fromString` |
| PageableUtils.SplitAtFirstCommaOnly | src/main/java/com/example/bankcards/util/PageableUtils.java:40-60 | after the first comma, further commas belong to the direction string, which falls back to ASC |
| PageableUtils.TrailingComma | src/main/java/com/example/bankcards/util/PageableUtils.java:53-54 | "field," sorts the field ascending |
| PageableUtils.LeadingComma | src/main/java/com/example/bankcards/util/PageableUtils.java:49-51 | ",direction" is dropped |
| PageableUtils.ParseNamedDirection | src/main/java/com/example/bankcards/util/PageableUtils.java:53-57 | "field,word" for a direction word gives that direction on the field |
| PageableUtils.ParseFormatted | src/main/java/com/example/bankcards/util/PageableUtils.java:34-62 | formatting an order as "property,asc" or "property,desc" and parsing it gives the order back |
| TransferValidator.IsValid | src/main/java/com/example/bankcards/util/validation/TransferValidator.java:13-45 | a null transfer is valid; valid iff no message was added iff none of the five conditions holds; messages in check order |
| TransferValidator.Prefix | src/main/java/com/example/bankcards/util/validation/TransferValidator.java:18-42 | the messages after the first n checks are in check order and empty iff none of those checks failed |
| TransferValidator.PrefixReason | src/main/java/com/example/bankcards/util/validation/TransferValidator.java:18-42 | after n checks a message is present iff its check ran and failed |
| TransferValidator.ViolationReason | src/main/java/com/example/bankcards/util/validation/TransferValidator.java:20-42 | each of the five messages is present iff its condition holds (same id; amount <= 0; source or target not ACTIVE; balance < amount) |
| TransferValidator.ValidTransferIsAccepted | src/main/java/com/example/bankcards/util/validation/TransferValidator.java:13-45 | every transfer the validator accepts, `createTransfer` accepts with a positive debit and credit between distinct cards |
| TransferValidator.SelfTransferFromInactiveCard | src/main/java/com/example/bankcards/util/validation/TransferValidator.java:20-37 | a covered transfer from an inactive card to itself gets exactly three messages, in check order |
| TransferValidator.AcceptedTransferCanBeInvalid | src/main/java/com/example/bankcards/service/TransferServiceImpl.java:43-64 | `createTransfer` accepts a transfer from a BLOCKED card to itself that the validator rejects |
| Requests.CardNumberErrors | src/main/java/com/example/bankcards/entity/CreateCardRequest.java:23-25 | @NotBlank fails iff null or blank; @Size fails iff non-null and its `length()` in UTF-16 code units is outside 16-19 |
| Requests.ExpiryDateErrors | src/main/java/com/example/bankcards/entity/CreateCardRequest.java:27-29 | @NotNull fails iff null; @Future fails iff non-null and not after today |
| Requests.AmountErrors | src/main/java/com/example/bankcards/entity/CreateCardRequest.java:31-33 | @NotNull fails iff null; @DecimalMin fails iff non-null and below the inclusive minimum |
| Requests.CreateCardErrors | src/main/java/com/example/bankcards/entity/CreateCardRequest.java:18-34 | each of the seven constraints fails iff its condition holds (@Size on UTF-16 code units); no error iff every field is present and valid |
| Requests.CreateCardEndpoint | src/main/java/com/example/bankcards/controller/CardController.java:183-187 | an invalid request is refused without change; a valid one is exactly `CreateCardStep` |
| Requests.CreatedCardIsConstrained | src/main/java/com/example/bankcards/entity/Card.java:59-69 | a card created from a valid request is ACTIVE, non-negative, and meets the constraints on Card when its balance fits the column |
| Requests.CardNumberSizeCountsCodeUnits | src/main/java/com/example/bankcards/entity/CreateCardRequest.java:23-25 | eight characters above U+FFFF are sixteen code units and pass @Size; sixteen of them are thirty-two and fail |
| Requests.CardNumberDigitsNotChecked | src/main/java/com/example/bankcards/entity/CreateCardRequest.java:23-25 | a sixteen-letter number passes validation |
| Requests.InvalidCardRequestRejected | src/test/java/com/example/bankcards/TestDataFactory.java:147-153 | (null, "invalid", null, -100) fails exactly four constraints and creates nothing |
| Requests.ExpiredCardRequestRejected | src/test/java/com/example/bankcards/TestDataFactory.java:139-144 | an expiry a year in the past fails @Future alone |
| Requests.OnlyExpiryFails | src/main/java/com/example/bankcards/entity/CreateCardRequest.java:18-34 | a request with a valid number and a non-negative balance whose expiry is not after today fails exactly @Future |
| Requests.TransferErrors | src/main/java/com/example/bankcards/dto/TransferRequest.java:14-25 | each constraint fails iff its condition holds; no error iff both ids present and amount >= 0.01 |
| Requests.TransferEndpoint | src/main/java/com/example/bankcards/controller/TransferController.java:90-96 | an invalid request is refused without change; a valid one is exactly `TransferStep` |
| Requests.ValidatedTransfer | src/main/java/com/example/bankcards/service/TransferServiceImpl.java:49-59 | a validated transfer between two cards strictly lowers the source; to itself it records a transfer and leaves the card; non-negativity kept |
| Requests.SameCardTransferRequestIsValid | src/main/java/com/example/bankcards/dto/TransferRequest.java:14-25 | equal source and target ids pass validation |
| Requests.InvalidTransferRequestRejected | src/test/java/com/example/bankcards/TestDataFactory.java:220-222 | (null, null, -100) fails exactly three constraints and makes no transfer |
| Requests.TransactionErrors | src/main/java/com/example/bankcards/dto/TransactionRequest.java:15-23 | each constraint fails iff its condition holds; no error iff amount >= 0.01 and a type is given |
| Requests.DepositEndpoint | src/main/java/com/example/bankcards/controller/TransactionController.java:84-89 | an invalid request is refused without change; a valid one is `DepositStep` on its amount |
| Requests.WithdrawEndpoint | src/main/java/com/example/bankcards/controller/TransactionController.java:91-96 | an invalid request is refused without change; a valid one is `WithdrawStep` on its amount |
| Requests.TransactionTypeIgnored | src/main/java/com/example/bankcards/controller/TransactionController.java:84-96 | the type field does not matter: the path decides deposit or withdrawal |
| Requests.ValidatedTransactionsKeepBalancesNonNegative | src/main/java/com/example/bankcards/controller/TransactionController.java:84-96 | through either endpoint, non-negative balances stay non-negative |
| Requests.InvalidTransactionRequestRejected | src/test/java/com/example/bankcards/TestDataFactory.java:182-184 | -100 with DEPOSIT fails @DecimalMin alone and changes nothing |

## Left out

- Card number encryption (`CardNumberEncryptor`) and masking: numbers are plaintext strings.
- Concurrency, isolation and locking: each service call is one atomic step over the store.
- Controllers are modelled only to the extent that validation decides whether the service runs. HTTP routing, DTO mapping and status codes are left out.
- Authentication, authorization and `UserServiceImpl`: the users are a set of ids.
- The `*Specifications` filters and paged queries (`getAllCards`, `getTransfersByUserId`, ...): they run in the database.
- `findByCardNumber`: it needs the encrypted column lookup, and the model holds plaintext numbers.
- Money is a whole number of cents. `BigDecimal` values with more than two fraction digits are not represented, so `@DecimalMin("0.01")` is modelled as at least one cent.
- The column bounds are not enforced when a card is written: precision 20, scale 2, and `@Digits` on Card. The same holds for the Bean-Validation constraints on Card at flush (@Size, @Future). `SatisfiesCardConstraints` states them and `Requests.CreatedCardIsConstrained` proves them for created cards. A deposit past the column bound is not modelled as a database error.
- Foreign-key constraints are not modelled: `deleteById` removes a card even when records reference it.
- An approve whose request names a card row that is gone fails with NotFound for the card, before the status check. This models the eager loading of the request's card.
- Entity fields that the core never reassigns after construction are `const`. Ids are taken from the identity sequence when the object is built, rather than at insert.
- Spring's `Sort.Order` constructor rejects a property made only of Unicode whitespace above U+0020, which `trim()` keeps. The exception that then escapes `parseSortOrder` is not modelled.
- Entities.CardPersisted: one `now` stands for every clock read in a service call. `Card.onCreate` reads `LocalDateTime.now()` once for `createdAt` and again for `updatedAt` (Card.java:86-87), and the Transaction and Transfer constructors and their @PrePersist read it separately, so in the source those timestamps can differ by the time between the reads.
- Entities.Card.OnCreate: for the same reason its contract gives `createdAt` and `updatedAt` the one value `now`.
- `JavaText.UpperCase`: case mapping covers only the characters that can spell ASC or DESC.
- TransferValidator.IsValid: the `ConstraintValidatorContext` is modelled as the returned list of messages.
- `Ledger.UserBalance` stands for `sumBalanceByUserId`. The repository query itself is not part of this model.
