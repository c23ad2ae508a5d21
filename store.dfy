/** The database behind the repositories: one map per table from the generated id to
    the stored row, the known users, and the four identity sequences. A service call
    loads managed entity objects from these rows, updates them in place, and writes
    their rows back on `save` or at commit. */
module Store {
  import opened Base
  import opened Entities
  import opened Ledger

  /** The next values of the four IDENTITY columns. */
  datatype Ids = Ids(card: CardId, transaction: RecordId, transfer: RecordId, block: RecordId)

  class Store {
    var users: set<UserId>
    var cards: map<CardId, CardRow>
    var transactions: map<RecordId, TransactionRow>
    var transfers: map<RecordId, TransferRow>
    var blocks: map<RecordId, BlockRow>
    var ids: Ids

    /** The rows of every table, as committed. */
    function State(): Ledger
      reads this
    {
      Ledger(users, cards, transactions, transfers, blocks)
    }

    /** Every stored id was drawn from its table's sequence, and the rows satisfy the
        ledger's invariant. */
    ghost predicate Valid()
      reads this
    {
      && (forall k | k in cards :: k < ids.card)
      && (forall k | k in transactions :: k < ids.transaction)
      && (forall k | k in transfers :: k < ids.transfer)
      && (forall k | k in blocks :: k < ids.block)
      && Invariant(State())
    }

    /** An empty database with the given users. */
    constructor (users: set<UserId>)
      ensures Valid()
      ensures State() == Ledger(users, map[], map[], map[], map[])
    {
      this.users := users;
      cards, transactions, transfers, blocks := map[], map[], map[], map[];
      ids := Ids(1, 1, 1, 1);
    }

    // -------------------------------------------------------------------------
    // Cards.
    // -------------------------------------------------------------------------

    /** `cardRepository.findById(id)`: a managed Card holding the stored row. */
    method LoadCard(id: CardId) returns (c: Option<Card>)
      ensures c.Some? <==> id in cards
      ensures c.Some? ==> fresh(c.value) && c.value.id == id && c.value.Row() == cards[id]
    {
      if id !in cards {
        return None;
      }
      var card := new Card.Load(id, cards[id]);
      c := Some(card);
    }

    /** `cardRepository.save(card)` of a new card: its @PrePersist hook runs and the
        row is inserted under the next card id. */
    method InsertCard(card: Card, now: Timestamp)
      requires Valid() && card.id == ids.card
      requires forall k | k in cards :: cards[k].number != card.cardNumber
      modifies this, card`createdAt, card`updatedAt
      ensures Valid()
      ensures card.Row() == CardPersisted(old(card.Row()), now)
      ensures State() == old(State()).(cards := old(cards)[card.id := card.Row()])
      ensures ids == old(ids).(card := old(ids.card) + 1)
    {
      card.OnCreate(now);
      cards := cards[card.id := card.Row()];
      ids := ids.(card := ids.card + 1);
    }

    /** Writing a managed card back at commit: Hibernate's dirty check runs @PreUpdate
        only when the card's row differs from `loaded`, the row read at the start of
        the unit of work. */
    method FlushCard(card: Card, loaded: CardRow, now: Timestamp)
      requires Valid() && card.id in cards && card.cardNumber == cards[card.id].number
      modifies this, card`updatedAt
      ensures Valid()
      ensures card.Row() == Flushed(loaded, old(card.Row()), now)
      ensures State() == old(State()).(cards := old(cards)[card.id := card.Row()])
      ensures ids == old(ids)
    {
      if card.Row() != loaded {
        card.OnUpdate(now);
      }
      UniqueAfterRowChange(cards, card.id, card.Row());
      cards := cards[card.id := card.Row()];
    }

    /** `cardRepository.deleteById(id)`. */
    method DeleteCard(id: CardId)
      requires Valid()
      modifies this
      ensures Valid()
      ensures State() == old(State()).(cards := old(cards) - {id})
      ensures ids == old(ids)
    {
      cards := cards - {id};
    }

    // -------------------------------------------------------------------------
    // Transactions and transfers: only ever inserted.
    // -------------------------------------------------------------------------

    method InsertTransaction(t: Transaction, now: Timestamp)
      requires Valid() && t.id == ids.transaction
      modifies this, t`createdAt
      ensures Valid()
      ensures t.Row() == TransactionPersisted(old(t.Row()), now)
      ensures State() == old(State()).(transactions := old(transactions)[t.id := t.Row()])
      ensures ids == old(ids).(transaction := old(ids.transaction) + 1)
    {
      t.OnCreate(now);
      transactions := transactions[t.id := t.Row()];
      ids := ids.(transaction := ids.transaction + 1);
    }

    method InsertTransfer(t: Transfer, now: Timestamp)
      requires Valid() && t.id == ids.transfer
      modifies this, t`createdAt, t`status
      ensures Valid()
      ensures t.Row() == TransferPersisted(old(t.Row()), now)
      ensures State() == old(State()).(transfers := old(transfers)[t.id := t.Row()])
      ensures ids == old(ids).(transfer := old(ids.transfer) + 1)
    {
      t.OnCreate(now);
      transfers := transfers[t.id := t.Row()];
      ids := ids.(transfer := ids.transfer + 1);
    }

    // -------------------------------------------------------------------------
    // Block requests.
    // -------------------------------------------------------------------------

    /** `cardBlockRepository.save(block)` of a new request: its @PrePersist hook runs
        and the row is inserted under the next id. */
    method InsertBlock(b: CardBlock, now: Timestamp)
      requires Valid() && b.id == ids.block && b.processedAt.None?
      requires forall k | k in blocks :: blocks[k].card != b.card.id
      modifies this, b`requestedAt, b`status
      ensures Valid()
      ensures b.Row() == BlockPersisted(old(b.Row()), now)
      ensures State() == old(State()).(blocks := old(blocks)[b.id := b.Row()])
      ensures ids == old(ids).(block := old(ids.block) + 1)
    {
      b.OnCreate(now);
      blocks := blocks[b.id := b.Row()];
      ids := ids.(block := ids.block + 1);
    }

    /** Writing a managed request back: @PreUpdate runs when its row differs from
        `loaded`. The request keeps its card, and a PENDING request is unprocessed. */
    method FlushBlock(b: CardBlock, loaded: BlockRow, now: Timestamp)
      requires Valid() && b.id in blocks && b.card.id == blocks[b.id].card
      requires b.status == Some(BlockRequestStatus.Pending) ==> b.processedAt.None?
      modifies this, b`processedAt
      ensures Valid()
      ensures b.Row() == (if old(b.Row()) != loaded then BlockUpdated(old(b.Row()), now) else old(b.Row()))
      ensures State() == old(State()).(blocks := old(blocks)[b.id := b.Row()])
      ensures ids == old(ids)
    {
      if b.Row() != loaded {
        b.OnUpdate(now);
      }
      blocks := blocks[b.id := b.Row()];
    }
  }

  /** Changing one card's row without changing its number keeps numbers unique. */
  lemma UniqueAfterRowChange(cards: map<CardId, CardRow>, k: CardId, v: CardRow)
    requires UniqueNumbers(cards) && k in cards && v.number == cards[k].number
    ensures UniqueNumbers(cards[k := v])
  {
    var c2 := cards[k := v];
    forall i, j | i in c2 && j in c2 && i != j ensures c2[i].number != c2[j].number {
      assert c2[i].number == cards[i].number && c2[j].number == cards[j].number;
    }
  }
}
