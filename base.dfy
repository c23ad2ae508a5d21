/** Shared vocabulary of the ledger core: identifiers, money, clocks, the status
    enumerations the entities reference, and the exceptions the services throw. */
module Base {

  /** Database identity values (`Long` ids generated by the IDENTITY strategy). */
  type UserId = int
  type CardId = int
  type RecordId = int

  /** Money is `BigDecimal` with scale 2; the model counts whole cents. */
  type Cents = int

  /** `LocalDate` as a day number and `LocalDateTime` as a tick count; the clock
      (`LocalDate.now()`, `LocalDateTime.now()`) is always passed in. */
  type Date = int
  type Timestamp = int

  /** A nullable reference or value. */
  datatype Option<+T> = None | Some(value: T)

  /** A service call either returns its value or throws one of the exceptions below. */
  datatype Result<+T> = Ok(value: T) | Err(error: Error)

  /** EXPIRED is a stored value the core never assigns; it reads only ACTIVE and
      BLOCKED explicitly. */
  datatype CardStatus = Active | Blocked | Expired
  datatype BlockRequestStatus = Pending | Approved
  datatype TransferStatus = Pending | Completed
  datatype TransactionType = Deposit | Withdraw

  /** The entity named in a `NotFoundException`. */
  datatype Entity = CardEntity | UserEntity | TransferEntity | CardBlockEntity

  /** Why an `IllegalArgumentException` was thrown. */
  datatype ArgumentReason =
    | DuplicateCardNumber        // createCard: "Card with this number already exists"
    | TransferInsufficientFunds  // createTransfer: "Insufficient funds"
    | InvalidPageRequest         // PageRequest.of: negative page or size below one

  /** Why an `IllegalStateException` was thrown. */
  datatype StateReason =
    | AlreadyBlocked             // blockCardById
    | AlreadyActive              // activateCard
    | CardExpired                // activateCard
    | DuplicateBlockRequest      // createBlockRequest
    | RequestAlreadyProcessed    // approveBlockRequest

  /** The exceptions thrown by the core. The exception handler answers `NotFound`
      with 404 and every other kind here with a 400 "Business error";
      `ArgumentNotValid` is the `MethodArgumentNotValidException` raised before a
      `@Valid` request body reaches the service, answered with 400 as well. */
  datatype Error =
    | NotFound(entity: Entity, id: int)
    | ArgumentNotValid
    | InsufficientFunds
    | IllegalArgument(argument: ArgumentReason)
    | IllegalState(state: StateReason)
}
