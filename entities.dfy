/** The persisted entities (Card, Transaction, Transfer, CardBlock) as classes whose
    JPA lifecycle hooks assign their fields, the row values a repository holds for
    each of them, and the Bean-Validation constraints declared on Card. */
module Entities {
  import opened Base
  import JavaText

  // ---------------------------------------------------------------------------
  // Rows: the persisted state of each entity, as a value.
  // ---------------------------------------------------------------------------

  datatype CardRow = CardRow(
    owner: UserId,
    number: string,
    expiry: Date,
    balance: Cents,
    status: CardStatus,
    createdAt: Option<Timestamp>,
    updatedAt: Option<Timestamp>)

  datatype TransactionRow = TransactionRow(
    card: CardId,
    kind: TransactionType,
    amount: Cents,
    createdAt: Option<Timestamp>)

  datatype TransferRow = TransferRow(
    from: CardId,
    to: CardId,
    amount: Cents,
    status: Option<TransferStatus>,
    createdAt: Option<Timestamp>)

  datatype BlockRow = BlockRow(
    card: CardId,
    user: UserId,
    status: Option<BlockRequestStatus>,
    requestedAt: Option<Timestamp>,
    processedAt: Option<Timestamp>)

  // ---------------------------------------------------------------------------
  // The lifecycle hooks, as functions on rows.
  // ---------------------------------------------------------------------------

  /** Card's @PrePersist: both timestamps become `now`, nothing else changes. */
  function CardPersisted(r: CardRow, now: Timestamp): (p: CardRow)
    ensures p.createdAt == Some(now) && p.updatedAt == Some(now)
    ensures p.(createdAt := r.createdAt, updatedAt := r.updatedAt) == r
  {
    r.(createdAt := Some(now), updatedAt := Some(now))
  }

  /** Card's @PreUpdate: only `updatedAt` is refreshed; `createdAt` is untouched. */
  function CardUpdated(r: CardRow, now: Timestamp): (u: CardRow)
    ensures u.updatedAt == Some(now)
    ensures u.(updatedAt := r.updatedAt) == r
  {
    r.(updatedAt := Some(now))
  }

  /** Flushing a managed card at commit: Hibernate's dirty check runs @PreUpdate only
      when the row differs from the one loaded at the start of the unit of work. */
  function Flushed(loaded: CardRow, current: CardRow, now: Timestamp): (r: CardRow)
    ensures r.(updatedAt := current.updatedAt) == current
    ensures current == loaded ==> r == loaded
    ensures current != loaded ==> r.updatedAt == Some(now)
  {
    if current == loaded then current else CardUpdated(current, now)
  }

  /** Transaction's @PrePersist: fills `createdAt` only when it is null. */
  function TransactionPersisted(r: TransactionRow, now: Timestamp): (p: TransactionRow)
    ensures p.createdAt.Some?
    ensures r.createdAt.Some? ==> p == r
    ensures p.(createdAt := r.createdAt) == r
  {
    if r.createdAt.None? then r.(createdAt := Some(now)) else r
  }

  /** Transfer's @PrePersist: fills a null `createdAt`, defaults a null status to
      PENDING, and never overrides a value that is already set. */
  function TransferPersisted(r: TransferRow, now: Timestamp): (p: TransferRow)
    ensures p.createdAt.Some? && p.status.Some?
    ensures r.createdAt.Some? ==> p.createdAt == r.createdAt
    ensures r.status.Some? ==> p.status == r.status
    ensures r.status.None? ==> p.status == Some(TransferStatus.Pending)
    ensures p.(status := r.status, createdAt := r.createdAt) == r
  {
    var stamped := if r.createdAt.None? then r.(createdAt := Some(now)) else r;
    if stamped.status.None? then stamped.(status := Some(TransferStatus.Pending)) else stamped
  }

  /** CardBlock's @PrePersist: status is forced to PENDING and `requestedAt` to
      `now`, whatever they held before. */
  function BlockPersisted(r: BlockRow, now: Timestamp): (p: BlockRow)
    ensures p.status == Some(BlockRequestStatus.Pending) && p.requestedAt == Some(now)
    ensures p.(status := r.status, requestedAt := r.requestedAt) == r
  {
    r.(requestedAt := Some(now), status := Some(BlockRequestStatus.Pending))
  }

  /** CardBlock's @PreUpdate: stamps `processedAt` exactly when the status is not
      PENDING; status, card, user and `requestedAt` are never changed. */
  function BlockUpdated(r: BlockRow, now: Timestamp): (u: BlockRow)
    ensures u.(processedAt := r.processedAt) == r
    ensures r.status != Some(BlockRequestStatus.Pending) ==> u.processedAt == Some(now)
    ensures r.status == Some(BlockRequestStatus.Pending) ==> u == r
  {
    if r.status != Some(BlockRequestStatus.Pending) then r.(processedAt := Some(now)) else r
  }

  // ---------------------------------------------------------------------------
  // Bean-Validation constraints declared on Card and the column bounds.
  // ---------------------------------------------------------------------------

  const CardNumberMinLength: nat := 16
  const CardNumberMaxLength: nat := 19

  /** 10^20 cents: `@Digits(integer = 18, fraction = 2)` and `precision = 20, scale = 2`
      admit at most 18 integer digits, so every value is strictly below 10^18 units. */
  const AmountLimit: Cents := 100_000_000_000_000_000_000

  /** A money value fits a `precision = 20, scale = 2` column. */
  predicate FitsColumn(amount: Cents) {
    -AmountLimit < amount < AmountLimit
  }

  /** `@Size(min = 16, max = 19)` on the number, `@Future` on the expiry date and
      `@Digits(integer = 18, fraction = 2)` on the balance. */
  predicate SatisfiesCardConstraints(r: CardRow, today: Date) {
    && CardNumberMinLength <= JavaText.Utf16Length(r.number) <= CardNumberMaxLength
    && r.expiry > today
    && FitsColumn(r.balance)
  }

  // ---------------------------------------------------------------------------
  // The entity classes.
  // ---------------------------------------------------------------------------

  class Card {
    const id: CardId
    const owner: UserId
    const cardNumber: string
    const expiryDate: Date
    var balance: Cents
    var status: CardStatus
    var createdAt: Option<Timestamp>
    var updatedAt: Option<Timestamp>

    /** `new Card()` followed by `setUser`, `setCardNumber` and `setExpiryDate`: the
        balance and status keep their field initialisers, ZERO and ACTIVE. */
    constructor (id: CardId, owner: UserId, cardNumber: string, expiryDate: Date)
      ensures this.id == id
      ensures Row() == CardRow(owner, cardNumber, expiryDate, 0, Active, None, None)
    {
      this.id := id;
      this.owner := owner;
      this.cardNumber := cardNumber;
      this.expiryDate := expiryDate;
      balance := 0;
      status := Active;
      createdAt := None;
      updatedAt := None;
    }

    /** The managed instance `cardRepository.findById` returns for a stored row. */
    constructor Load(id: CardId, r: CardRow)
      ensures this.id == id && Row() == r
    {
      this.id := id;
      owner := r.owner;
      cardNumber := r.number;
      expiryDate := r.expiry;
      balance := r.balance;
      status := r.status;
      createdAt := r.createdAt;
      updatedAt := r.updatedAt;
    }

    function Row(): CardRow
      reads this
    {
      CardRow(owner, cardNumber, expiryDate, balance, status, createdAt, updatedAt)
    }

    method OnCreate(now: Timestamp)
      modifies this`createdAt, this`updatedAt
      ensures Row() == CardPersisted(old(Row()), now)
    {
      createdAt := Some(now);
      updatedAt := Some(now);
    }

    method OnUpdate(now: Timestamp)
      modifies this`updatedAt
      ensures Row() == CardUpdated(old(Row()), now)
    {
      updatedAt := Some(now);
    }
  }

  class Transaction {
    const id: RecordId
    const card: Card
    const transactionType: TransactionType
    const amount: Cents
    var createdAt: Option<Timestamp>

    /** `new Transaction(card, transactionType, amount)`: stores the three values
        as given and sets `createdAt` to the current time. */
    constructor (id: RecordId, card: Card, transactionType: TransactionType, amount: Cents, now: Timestamp)
      ensures this.id == id && this.card == card
      ensures Row() == TransactionRow(card.id, transactionType, amount, Some(now))
    {
      this.id := id;
      this.card := card;
      this.transactionType := transactionType;
      this.amount := amount;
      createdAt := Some(now);
    }

    function Row(): TransactionRow
      reads this
    {
      TransactionRow(card.id, transactionType, amount, createdAt)
    }

    method OnCreate(now: Timestamp)
      modifies this`createdAt
      ensures Row() == TransactionPersisted(old(Row()), now)
    {
      if createdAt.None? {
        createdAt := Some(now);
      }
    }
  }

  class Transfer {
    const id: RecordId
    const fromCard: Card
    const toCard: Card
    const amount: Cents
    var status: Option<TransferStatus>
    var createdAt: Option<Timestamp>

    /** `new Transfer(fromCard, toCard, amount, status)`: stores the four values as
        given (the status may be null) and sets `createdAt` to the current time. */
    constructor (id: RecordId, fromCard: Card, toCard: Card, amount: Cents,
                 status: Option<TransferStatus>, now: Timestamp)
      ensures this.id == id && this.fromCard == fromCard && this.toCard == toCard
      ensures Row() == TransferRow(fromCard.id, toCard.id, amount, status, Some(now))
    {
      this.id := id;
      this.fromCard := fromCard;
      this.toCard := toCard;
      this.amount := amount;
      this.status := status;
      createdAt := Some(now);
    }

    function Row(): TransferRow
      reads this
    {
      TransferRow(fromCard.id, toCard.id, amount, status, createdAt)
    }

    method OnCreate(now: Timestamp)
      modifies this`createdAt, this`status
      ensures Row() == TransferPersisted(old(Row()), now)
    {
      if createdAt.None? {
        createdAt := Some(now);
      }
      if status.None? {
        status := Some(TransferStatus.Pending);
      }
    }
  }

  class CardBlock {
    const id: RecordId
    const card: Card
    const user: UserId
    var requestedAt: Option<Timestamp>
    var processedAt: Option<Timestamp>
    var status: Option<BlockRequestStatus>

    /** `new CardBlock()` followed by `setCard` and `setUser`: every other field is null. */
    constructor (id: RecordId, card: Card, user: UserId)
      ensures this.id == id && this.card == card
      ensures Row() == BlockRow(card.id, user, None, None, None)
    {
      this.id := id;
      this.card := card;
      this.user := user;
      requestedAt := None;
      processedAt := None;
      status := None;
    }

    /** The managed instance `cardBlockRepository.findById` returns for a stored row,
        with its card association resolved to `card`. */
    constructor Load(id: RecordId, card: Card, r: BlockRow)
      requires card.id == r.card
      ensures this.id == id && this.card == card && Row() == r
    {
      this.id := id;
      this.card := card;
      user := r.user;
      requestedAt := r.requestedAt;
      processedAt := r.processedAt;
      status := r.status;
    }

    function Row(): BlockRow
      reads this
    {
      BlockRow(card.id, user, status, requestedAt, processedAt)
    }

    method OnCreate(now: Timestamp)
      modifies this`requestedAt, this`status
      ensures Row() == BlockPersisted(old(Row()), now)
    {
      requestedAt := Some(now);
      status := Some(BlockRequestStatus.Pending);
    }

    method OnUpdate(now: Timestamp)
      modifies this`processedAt
      ensures Row() == BlockUpdated(old(Row()), now)
    {
      if status != Some(BlockRequestStatus.Pending) {
        processedAt := Some(now);
      }
    }
  }
}
