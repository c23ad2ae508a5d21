/** The request bodies the controllers accept with `@Valid`, and the Bean-Validation
    constraints declared on their fields. A null field is `None`; money is in cents. */
module Requests {
  import opened Base
  import opened Entities
  import opened Ledger
  import JavaText
  import CardService
  import TransactionService
  import TransferService

  /** The constraint annotations the three request classes use. */
  datatype Constraint = NotNull | NotBlank | Size | Future | DecimalMin

  /** The request fields that carry constraints, named after the Java fields. */
  datatype Field =
    | UserIdField | CardNumberField | ExpiryDateField | BalanceField    // CreateCardRequest
    | FromCardIdField | ToCardIdField                                  // TransferRequest
    | AmountField                                                      // TransferRequest, TransactionRequest
    | TransactionTypeField                                             // TransactionRequest

  /** One failed constraint on one field, as in the `FieldError`s of a
      `MethodArgumentNotValidException`. */
  datatype FieldError = FieldError(field: Field, constraint: Constraint)

  /** The set of errors with `e` when `failed`, and empty otherwise. */
  function ErrorIf(failed: bool, e: FieldError): (es: set<FieldError>)
    ensures e in es <==> failed
    ensures forall x | x in es :: x == e
  {
    if failed then {e} else {}
  }

  // ---------------------------------------------------------------------------
  // CreateCardRequest
  // ---------------------------------------------------------------------------

  datatype CreateCardRequest = CreateCardRequest(
    userId: Option<UserId>,
    cardNumber: Option<string>,
    expiryDate: Option<Date>,
    balance: Option<Cents>)

  /** `@NotBlank @Size(min = 16, max = 19)` on `cardNumber`; `@Size` measures
      `length()`, in UTF-16 code units. */
  function CardNumberErrors(number: Option<string>): (es: set<FieldError>)
    ensures FieldError(CardNumberField, NotBlank) in es <==> JavaText.IsBlank(number)
    ensures FieldError(CardNumberField, Size) in es <==>
              number.Some? && !(CardNumberMinLength <= JavaText.Utf16Length(number.value) <= CardNumberMaxLength)
    ensures forall e | e in es :: e.field == CardNumberField && e.constraint in {NotBlank, Size}
  {
    ErrorIf(JavaText.IsBlank(number), FieldError(CardNumberField, NotBlank))
    + ErrorIf(number.Some? && !(CardNumberMinLength <= JavaText.Utf16Length(number.value) <= CardNumberMaxLength), FieldError(CardNumberField, Size))
  }

  /** `@NotNull @Future` on `expiryDate`: strictly after `today`. */
  function ExpiryDateErrors(expiry: Option<Date>, today: Date): (es: set<FieldError>)
    ensures FieldError(ExpiryDateField, NotNull) in es <==> expiry.None?
    ensures FieldError(ExpiryDateField, Future) in es <==> expiry.Some? && expiry.value <= today
    ensures forall e | e in es :: e.field == ExpiryDateField && e.constraint in {NotNull, Future}
  {
    ErrorIf(expiry.None?, FieldError(ExpiryDateField, NotNull))
    + ErrorIf(expiry.Some? && expiry.value <= today, FieldError(ExpiryDateField, Future))
  }

  /** `@NotNull @DecimalMin(m)` on a money field: the bound `m` is inclusive. */
  function AmountErrors(field: Field, amount: Option<Cents>, min: Cents): (es: set<FieldError>)
    ensures FieldError(field, NotNull) in es <==> amount.None?
    ensures FieldError(field, DecimalMin) in es <==> amount.Some? && amount.value < min
    ensures forall e | e in es :: e.field == field && e.constraint in {NotNull, DecimalMin}
  {
    ErrorIf(amount.None?, FieldError(field, NotNull))
    + ErrorIf(amount.Some? && amount.value < min, FieldError(field, DecimalMin))
  }

  /** The constraints on `CreateCardRequest`, checked with `today` as the clock. `@Size`,
      `@Future` and `@DecimalMin` accept null, which `@NotNull` or `@NotBlank` reports
      instead. */
  function CreateCardErrors(r: CreateCardRequest, today: Date): (es: set<FieldError>)
    ensures FieldError(UserIdField, NotNull) in es <==> r.userId.None?
    ensures FieldError(CardNumberField, NotBlank) in es <==> JavaText.IsBlank(r.cardNumber)
    ensures FieldError(CardNumberField, Size) in es <==>
              r.cardNumber.Some? && !(CardNumberMinLength <= JavaText.Utf16Length(r.cardNumber.value) <= CardNumberMaxLength)
    ensures FieldError(ExpiryDateField, NotNull) in es <==> r.expiryDate.None?
    ensures FieldError(ExpiryDateField, Future) in es <==> r.expiryDate.Some? && r.expiryDate.value <= today
    ensures FieldError(BalanceField, NotNull) in es <==> r.balance.None?
    ensures FieldError(BalanceField, DecimalMin) in es <==> r.balance.Some? && r.balance.value < 0
    ensures es == {} <==>
              && r.userId.Some? && r.cardNumber.Some? && r.expiryDate.Some? && r.balance.Some?
              && !JavaText.IsBlank(r.cardNumber)
              && CardNumberMinLength <= JavaText.Utf16Length(r.cardNumber.value) <= CardNumberMaxLength
              && r.expiryDate.value > today && r.balance.value >= 0
  {
    ErrorIf(r.userId.None?, FieldError(UserIdField, NotNull))
    + CardNumberErrors(r.cardNumber)
    + ExpiryDateErrors(r.expiryDate, today)
    + AmountErrors(BalanceField, r.balance, 0)
  }

  /** `POST /api/cards`: a request that fails validation never reaches `createCard`. */
  function CreateCardEndpoint(l: Ledger, r: CreateCardRequest, today: Date, now: Timestamp, id: CardId): (s: Step<CardId>)
    ensures CreateCardErrors(r, today) != {} ==> s == Step(Err(ArgumentNotValid), l)
    ensures CreateCardErrors(r, today) == {} ==>
              s == CardService.CreateCardStep(l, r.userId.value, r.cardNumber.value, r.expiryDate.value, r.balance.value, now, id)
  {
    if CreateCardErrors(r, today) != {} then Step(Err(ArgumentNotValid), l)
    else CardService.CreateCardStep(l, r.userId.value, r.cardNumber.value, r.expiryDate.value, r.balance.value, now, id)
  }

  /** A card created through the endpoint meets the constraints declared on `Card`
      (when its balance fits the column), and starts with a non-negative balance. */
  lemma CreatedCardIsConstrained(l: Ledger, r: CreateCardRequest, today: Date, now: Timestamp, id: CardId)
    requires CreateCardEndpoint(l, r, today, now, id).result.Ok?
    ensures var card := CreateCardEndpoint(l, r, today, now, id).after.cards[id];
            && card.balance >= 0 && card.status == Active
            && (FitsColumn(r.balance.value) ==> SatisfiesCardConstraints(card, today))
    ensures NonNegative(l.cards) ==> NonNegative(CreateCardEndpoint(l, r, today, now, id).after.cards)
  {
    var s := CreateCardEndpoint(l, r, today, now, id);
    assert CreateCardErrors(r, today) == {};
    assert s.after.cards == l.cards[id := s.after.cards[id]];
  }

  /** Nothing checks that the characters of the number are digits: sixteen letters
      pass validation. */
  lemma CardNumberDigitsNotChecked(today: Date)
    ensures CreateCardErrors(CreateCardRequest(Some(1), Some("abcdefghijklmnop"), Some(today + 1), Some(0)), today) == {}
  {
    assert !JavaText.IsBlank(Some("abcdefghijklmnop")) by {
      JavaText.TrimKeeps("abcdefghijklmnop", 0);
    }
    JavaText.BmpLength("abcdefghijklmnop");
  }

  /** `@Size` counts UTF-16 code units: eight characters from above the Basic
      Multilingual Plane are sixteen units and pass, while sixteen of them are
      thirty-two units and fail. */
  lemma CardNumberSizeCountsCodeUnits()
    ensures var eight := seq(8, _ => '\U{1F600}');
            && |eight| == 8 && FieldError(CardNumberField, Size) !in CardNumberErrors(Some(eight))
    ensures var sixteen := seq(16, _ => '\U{1F600}');
            && |sixteen| == 16 && FieldError(CardNumberField, Size) in CardNumberErrors(Some(sixteen))
  {
    JavaText.RepeatedLength('\U{1F600}', 8);
    JavaText.RepeatedLength('\U{1F600}', 16);
  }

  /** The request of `createInvalidCardRequest()`: no user, the number "invalid", no
      expiry date and a balance of -100.00 fails four constraints, and nothing is
      created. */
  lemma InvalidCardRequestRejected(l: Ledger, today: Date, now: Timestamp, id: CardId)
    ensures var r := CreateCardRequest(None, Some("invalid"), None, Some(-10000));
            && CreateCardErrors(r, today) == {FieldError(UserIdField, NotNull), FieldError(CardNumberField, Size),
                                               FieldError(ExpiryDateField, NotNull), FieldError(BalanceField, DecimalMin)}
            && CreateCardEndpoint(l, r, today, now, id) == Step(Err(ArgumentNotValid), l)
  {
    var r := CreateCardRequest(None, Some("invalid"), None, Some(-10000));
    ShortNumberTooShort();
    assert ErrorIf(true, FieldError(UserIdField, NotNull)) == {FieldError(UserIdField, NotNull)};
    assert ExpiryDateErrors(r.expiryDate, today) == {FieldError(ExpiryDateField, NotNull)};
    assert AmountErrors(BalanceField, r.balance, 0) == {FieldError(BalanceField, DecimalMin)};
  }

  /** "invalid" is not blank, but seven code units are too few for `@Size`. */
  lemma ShortNumberTooShort()
    ensures CardNumberErrors(Some("invalid")) == {FieldError(CardNumberField, Size)}
  {
    assert !JavaText.IsBlank(Some("invalid")) by {
      JavaText.TrimKeeps("invalid", 0);
    }
    JavaText.BmpLength("invalid");
  }

  /** The card number of the test fixtures passes both of its constraints. */
  lemma FixtureNumberValid()
    ensures CardNumberErrors(Some("9876543210987654")) == {}
  {
    assert !JavaText.IsBlank(Some("9876543210987654")) by {
      JavaText.TrimKeeps("9876543210987654", 0);
    }
    JavaText.BmpLength("9876543210987654");
  }

  /** The request of `createExpiredCardRequest(userId)`: an expiry date a year in the
      past fails `@Future` alone. */
  lemma ExpiredCardRequestRejected(userId: UserId, today: Date)
    ensures CreateCardErrors(CreateCardRequest(Some(userId), Some("9876543210987654"), Some(today - 365), Some(50000)), today)
            == {FieldError(ExpiryDateField, Future)}
  {
    FixtureNumberValid();
    OnlyExpiryFails(userId, "9876543210987654", today - 365, 50000, today);
  }

  /** A request whose only fault is an expiry date not after `today`. */
  lemma OnlyExpiryFails(userId: UserId, number: string, expiry: Date, balance: Cents, today: Date)
    requires CardNumberErrors(Some(number)) == {} && expiry <= today && balance >= 0
    ensures CreateCardErrors(CreateCardRequest(Some(userId), Some(number), Some(expiry), Some(balance)), today)
            == {FieldError(ExpiryDateField, Future)}
  {
    var r := CreateCardRequest(Some(userId), Some(number), Some(expiry), Some(balance));
    assert ErrorIf(false, FieldError(UserIdField, NotNull)) == {};
    assert ExpiryDateErrors(r.expiryDate, today) == {FieldError(ExpiryDateField, Future)};
    assert AmountErrors(BalanceField, r.balance, 0) == {};
  }

  // ---------------------------------------------------------------------------
  // TransferRequest
  // ---------------------------------------------------------------------------

  datatype TransferRequest = TransferRequest(fromCardId: Option<CardId>, toCardId: Option<CardId>, amount: Option<Cents>)

  /** The constraints on `TransferRequest`: both ids and the amount are required, and
      the amount is at least 0.01. Nothing relates the two ids. */
  function TransferErrors(r: TransferRequest): (es: set<FieldError>)
    ensures FieldError(FromCardIdField, NotNull) in es <==> r.fromCardId.None?
    ensures FieldError(ToCardIdField, NotNull) in es <==> r.toCardId.None?
    ensures FieldError(AmountField, NotNull) in es <==> r.amount.None?
    ensures FieldError(AmountField, DecimalMin) in es <==> r.amount.Some? && r.amount.value < 1
    ensures es == {} <==> r.fromCardId.Some? && r.toCardId.Some? && r.amount.Some? && r.amount.value >= 1
  {
    ErrorIf(r.fromCardId.None?, FieldError(FromCardIdField, NotNull))
    + ErrorIf(r.toCardId.None?, FieldError(ToCardIdField, NotNull))
    + AmountErrors(AmountField, r.amount, 1)
  }

  /** `POST /api/transfers`: a request that fails validation never reaches
      `createTransfer`. */
  function TransferEndpoint(l: Ledger, r: TransferRequest, now: Timestamp, id: RecordId): (s: Step<RecordId>)
    ensures TransferErrors(r) != {} ==> s == Step(Err(ArgumentNotValid), l)
    ensures TransferErrors(r) == {} ==>
              s == TransferService.TransferStep(l, r.fromCardId.value, r.toCardId.value, r.amount.value, now, id)
  {
    if TransferErrors(r) != {} then Step(Err(ArgumentNotValid), l)
    else TransferService.TransferStep(l, r.fromCardId.value, r.toCardId.value, r.amount.value, now, id)
  }

  /** A validated transfer between two cards moves at least one cent and keeps every
      balance non-negative; a transfer from a card to itself passes validation and is
      recorded without changing the card. */
  lemma ValidatedTransfer(l: Ledger, r: TransferRequest, now: Timestamp, id: RecordId)
    requires TransferEndpoint(l, r, now, id).result.Ok?
    ensures var s := TransferEndpoint(l, r, now, id);
            var from := r.fromCardId.value;
            && (from != r.toCardId.value ==> s.after.cards[from].balance < l.cards[from].balance)
            && (from == r.toCardId.value ==> s.after.cards[from] == l.cards[from] && id in s.after.transfers)
            && (NonNegative(l.cards) ==> NonNegative(s.after.cards))
  {
    assert TransferErrors(r) == {};
  }

  /** Nothing stops a transfer from a card to itself at validation. */
  lemma SameCardTransferRequestIsValid(id: CardId, amount: Cents)
    requires amount >= 1
    ensures TransferErrors(TransferRequest(Some(id), Some(id), Some(amount))) == {}
  {
  }

  /** The request of `createInvalidTransferRequest()`: no ids and an amount of -100.00
      fails three constraints, and no transfer is made. */
  lemma InvalidTransferRequestRejected(l: Ledger, now: Timestamp, id: RecordId)
    ensures var r := TransferRequest(None, None, Some(-10000));
            && TransferErrors(r) == {FieldError(FromCardIdField, NotNull), FieldError(ToCardIdField, NotNull), FieldError(AmountField, DecimalMin)}
            && TransferEndpoint(l, r, now, id) == Step(Err(ArgumentNotValid), l)
  {
    var es := TransferErrors(TransferRequest(None, None, Some(-10000)));
    assert FieldError(FromCardIdField, NotNull) in es;
    assert FieldError(ToCardIdField, NotNull) in es;
    assert FieldError(AmountField, DecimalMin) in es;
  }

  // ---------------------------------------------------------------------------
  // TransactionRequest
  // ---------------------------------------------------------------------------

  datatype TransactionRequest = TransactionRequest(amount: Option<Cents>, transactionType: Option<TransactionType>)

  /** The constraints on `TransactionRequest`: an amount of at least 0.01 and a type. */
  function TransactionErrors(r: TransactionRequest): (es: set<FieldError>)
    ensures FieldError(AmountField, NotNull) in es <==> r.amount.None?
    ensures FieldError(AmountField, DecimalMin) in es <==> r.amount.Some? && r.amount.value < 1
    ensures FieldError(TransactionTypeField, NotNull) in es <==> r.transactionType.None?
    ensures es == {} <==> r.amount.Some? && r.amount.value >= 1 && r.transactionType.Some?
  {
    AmountErrors(AmountField, r.amount, 1)
    + ErrorIf(r.transactionType.None?, FieldError(TransactionTypeField, NotNull))
  }

  /** `POST /api/transactions/deposit/{cardId}`: only the amount is passed on. */
  function DepositEndpoint(l: Ledger, cardId: CardId, r: TransactionRequest, now: Timestamp, txId: RecordId): (s: Step<RecordId>)
    ensures TransactionErrors(r) != {} ==> s == Step(Err(ArgumentNotValid), l)
    ensures TransactionErrors(r) == {} ==> s == TransactionService.DepositStep(l, cardId, r.amount.value, now, txId)
  {
    if TransactionErrors(r) != {} then Step(Err(ArgumentNotValid), l)
    else TransactionService.DepositStep(l, cardId, r.amount.value, now, txId)
  }

  /** `POST /api/transactions/withdraw/{cardId}`: only the amount is passed on. */
  function WithdrawEndpoint(l: Ledger, cardId: CardId, r: TransactionRequest, now: Timestamp, txId: RecordId): (s: Step<RecordId>)
    ensures TransactionErrors(r) != {} ==> s == Step(Err(ArgumentNotValid), l)
    ensures TransactionErrors(r) == {} ==> s == TransactionService.WithdrawStep(l, cardId, r.amount.value, now, txId)
  {
    if TransactionErrors(r) != {} then Step(Err(ArgumentNotValid), l)
    else TransactionService.WithdrawStep(l, cardId, r.amount.value, now, txId)
  }

  /** The endpoint, not the request, decides the direction: a request typed WITHDRAW
      sent to the deposit endpoint deposits, and one typed DEPOSIT sent to the withdraw
      endpoint withdraws. */
  lemma TransactionTypeIgnored(l: Ledger, cardId: CardId, amount: Cents, now: Timestamp, txId: RecordId)
    requires amount >= 1
    ensures var asWithdraw := TransactionRequest(Some(amount), Some(TransactionType.Withdraw));
            var asDeposit := TransactionRequest(Some(amount), Some(TransactionType.Deposit));
            && DepositEndpoint(l, cardId, asWithdraw, now, txId) == DepositEndpoint(l, cardId, asDeposit, now, txId)
            && WithdrawEndpoint(l, cardId, asDeposit, now, txId) == WithdrawEndpoint(l, cardId, asWithdraw, now, txId)
            && (cardId in l.cards ==>
                  DepositEndpoint(l, cardId, asWithdraw, now, txId).after.transactions[txId].kind == TransactionType.Deposit)
  {
  }

  /** A validated deposit or withdrawal keeps every balance non-negative. */
  lemma ValidatedTransactionsKeepBalancesNonNegative(l: Ledger, cardId: CardId, r: TransactionRequest, now: Timestamp, txId: RecordId)
    requires NonNegative(l.cards)
    ensures NonNegative(DepositEndpoint(l, cardId, r, now, txId).after.cards)
    ensures NonNegative(WithdrawEndpoint(l, cardId, r, now, txId).after.cards)
  {
  }

  /** The request of `createInvalidTransactionRequest()`: -100.00 with type DEPOSIT
      fails `@DecimalMin` alone, and the deposit endpoint changes nothing. */
  lemma InvalidTransactionRequestRejected(l: Ledger, cardId: CardId, now: Timestamp, txId: RecordId)
    ensures var r := TransactionRequest(Some(-10000), Some(TransactionType.Deposit));
            && TransactionErrors(r) == {FieldError(AmountField, DecimalMin)}
            && DepositEndpoint(l, cardId, r, now, txId) == Step(Err(ArgumentNotValid), l)
  {
    assert FieldError(AmountField, DecimalMin) in TransactionErrors(TransactionRequest(Some(-10000), Some(TransactionType.Deposit)));
  }
}
