/** `TransactionServiceImpl.deposit` and `withdraw`: each loads a card, overwrites its
    balance, and records a Transaction in the same unit of work. */
module TransactionService {
  import opened Base
  import opened Entities
  import opened Ledger
  import opened Store

  /** Every card's balance, and nothing else of its row. */
  function Balances(cards: map<CardId, CardRow>): (b: map<CardId, Cents>)
    ensures b.Keys == cards.Keys
    ensures forall k | k in cards :: b[k] == cards[k].balance
  {
    map k | k in cards :: cards[k].balance
  }

  /** The rows a successful deposit or withdrawal leaves: the card's balance set to
      `balance`, flushed, and the new transaction record. */
  function Recorded(l: Ledger, cardId: CardId, kind: TransactionType, amount: Cents, balance: Cents,
                    now: Timestamp, txId: RecordId): Ledger
    requires cardId in l.cards
  {
    var loaded := l.cards[cardId];
    var card := Flushed(loaded, loaded.(balance := balance), now);
    var tx := TransactionPersisted(TransactionRow(cardId, kind, amount, Some(now)), now);
    l.(cards := l.cards[cardId := card], transactions := l.transactions[txId := tx])
  }

  /** `deposit(cardId, amount)`: the card is found or NotFound is thrown; the card's
      status is never looked at. */
  function DepositStep(l: Ledger, cardId: CardId, amount: Cents, now: Timestamp, txId: RecordId): (s: Step<RecordId>)
    ensures cardId !in l.cards ==> s == Step(Err(NotFound(CardEntity, cardId)), l)
    ensures cardId in l.cards ==> s.result == Ok(txId)
    ensures s.result.Ok? ==>
      && s.after.cards.Keys == l.cards.Keys
      && s.after.cards[cardId].balance == l.cards[cardId].balance + amount
      && s.after.cards[cardId].(balance := l.cards[cardId].balance, updatedAt := l.cards[cardId].updatedAt) == l.cards[cardId]
      && s.after.cards[cardId].updatedAt == (if amount == 0 then l.cards[cardId].updatedAt else Some(now))
      && (forall k | k in l.cards && k != cardId :: s.after.cards[k] == l.cards[k])
      && s.after.transactions == l.transactions[txId := TransactionRow(cardId, TransactionType.Deposit, amount, Some(now))]
      && s.after.(cards := l.cards, transactions := l.transactions) == l
    ensures Invariant(l) ==> Invariant(s.after)
    ensures NonNegative(l.cards) && amount >= 0 ==> NonNegative(s.after.cards)
  {
    if cardId !in l.cards then Step(Err(NotFound(CardEntity, cardId)), l)
    else
      var after := Recorded(l, cardId, TransactionType.Deposit, amount, l.cards[cardId].balance + amount, now, txId);
      assert forall k | k in after.cards :: after.cards[k].number == l.cards[k].number;
      Step(Ok(txId), after)
  }

  /** `withdraw(cardId, amount)`: NotFound, then InsufficientFunds when the balance is
      strictly below the amount; otherwise the amount is taken off. */
  function WithdrawStep(l: Ledger, cardId: CardId, amount: Cents, now: Timestamp, txId: RecordId): (s: Step<RecordId>)
    ensures cardId !in l.cards ==> s == Step(Err(NotFound(CardEntity, cardId)), l)
    ensures cardId in l.cards && l.cards[cardId].balance < amount ==> s == Step(Err(InsufficientFunds), l)
    ensures s.result.Ok? <==> cardId in l.cards && l.cards[cardId].balance >= amount
    ensures s.result.Ok? ==>
      && s.result.value == txId
      && s.after.cards.Keys == l.cards.Keys
      && s.after.cards[cardId].balance == l.cards[cardId].balance - amount
      && s.after.cards[cardId].(balance := l.cards[cardId].balance, updatedAt := l.cards[cardId].updatedAt) == l.cards[cardId]
      && s.after.cards[cardId].updatedAt == (if amount == 0 then l.cards[cardId].updatedAt else Some(now))
      && (forall k | k in l.cards && k != cardId :: s.after.cards[k] == l.cards[k])
      && s.after.transactions == l.transactions[txId := TransactionRow(cardId, TransactionType.Withdraw, amount, Some(now))]
      && s.after.(cards := l.cards, transactions := l.transactions) == l
    ensures cardId in l.cards && l.cards[cardId].balance == amount ==> s.result.Ok? && s.after.cards[cardId].balance == 0
    ensures Invariant(l) ==> Invariant(s.after)
    ensures NonNegative(l.cards) ==> NonNegative(s.after.cards)
  {
    if cardId !in l.cards then Step(Err(NotFound(CardEntity, cardId)), l)
    else if l.cards[cardId].balance < amount then Step(Err(InsufficientFunds), l)
    else
      var after := Recorded(l, cardId, TransactionType.Withdraw, amount, l.cards[cardId].balance - amount, now, txId);
      assert forall k | k in after.cards :: after.cards[k].number == l.cards[k].number;
      Step(Ok(txId), after)
  }

  /** A deposit followed by a withdrawal of the same amount from the same card leaves
      every balance as it was, and records both transactions. */
  lemma {:induction false} DepositThenWithdraw(l: Ledger, cardId: CardId, amount: Cents,
                                               now1: Timestamp, id1: RecordId, now2: Timestamp, id2: RecordId)
    requires cardId in l.cards && l.cards[cardId].balance >= 0
    ensures var d := DepositStep(l, cardId, amount, now1, id1);
            var w := WithdrawStep(d.after, cardId, amount, now2, id2);
            && d.result == Ok(id1) && w.result == Ok(id2)
            && Balances(w.after.cards) == Balances(l.cards)
            && w.after.transactions == l.transactions[id1 := TransactionRow(cardId, TransactionType.Deposit, amount, Some(now1))]
                                                     [id2 := TransactionRow(cardId, TransactionType.Withdraw, amount, Some(now2))]
  {
    var d := DepositStep(l, cardId, amount, now1, id1);
    var w := WithdrawStep(d.after, cardId, amount, now2, id2);
    assert w.result.Ok?;
    forall k | k in l.cards ensures w.after.cards[k].balance == l.cards[k].balance {
    }
  }

  /** A deposit raises the total over all cards and the owner's balance by `amount`;
      every other user's balance is unchanged. */
  lemma DepositBalances(l: Ledger, cardId: CardId, amount: Cents, now: Timestamp, txId: RecordId, user: UserId)
    requires cardId in l.cards
    ensures var s := DepositStep(l, cardId, amount, now, txId);
            && TotalBalance(s.after.cards) == TotalBalance(l.cards) + amount
            && UserBalance(s.after.cards, user)
               == UserBalance(l.cards, user) + (if user == l.cards[cardId].owner then amount else 0)
  {
    var s := DepositStep(l, cardId, amount, now, txId);
    assert s.after.cards == l.cards[cardId := s.after.cards[cardId]];
    SumAfterUpdate(l.cards, cardId, s.after.cards[cardId], None);
    SumAfterUpdate(l.cards, cardId, s.after.cards[cardId], Some(user));
  }

  /** A successful withdrawal lowers the total and the owner's balance by `amount`;
      a failed one changes no balance. */
  lemma WithdrawBalances(l: Ledger, cardId: CardId, amount: Cents, now: Timestamp, txId: RecordId, user: UserId)
    ensures var s := WithdrawStep(l, cardId, amount, now, txId);
            && TotalBalance(s.after.cards) == TotalBalance(l.cards) - (if s.result.Ok? then amount else 0)
            && UserBalance(s.after.cards, user)
               == UserBalance(l.cards, user) - (if s.result.Ok? && user == l.cards[cardId].owner then amount else 0)
  {
    var s := WithdrawStep(l, cardId, amount, now, txId);
    if s.result.Ok? {
      assert s.after.cards == l.cards[cardId := s.after.cards[cardId]];
      SumAfterUpdate(l.cards, cardId, s.after.cards[cardId], None);
      SumAfterUpdate(l.cards, cardId, s.after.cards[cardId], Some(user));
    }
  }

  // ---------------------------------------------------------------------------
  // The service methods on the store.
  // ---------------------------------------------------------------------------

  /** `TransactionServiceImpl.deposit`. */
  method Deposit(db: Store, cardId: CardId, amount: Cents, now: Timestamp) returns (r: Result<Transaction>)
    requires db.Valid()
    modifies db
    ensures db.Valid()
    ensures var s := DepositStep(old(db.State()), cardId, amount, now, old(db.ids.transaction));
            && db.State() == s.after
            && (r.Ok? <==> s.result.Ok?)
            && (r.Err? ==> r.error == s.result.error)
            && (r.Ok? ==> fresh(r.value) && r.value.id == s.result.value && r.value.Row() == db.transactions[r.value.id])
    ensures db.ids == old(db.ids).(transaction := old(db.ids.transaction) + if r.Ok? then 1 else 0)
  {
    var found := db.LoadCard(cardId);
    if found.None? {
      return Err(NotFound(CardEntity, cardId));
    }
    var card := found.value;
    var loaded := card.Row();
    card.balance := card.balance + amount;
    var t := new Transaction(db.ids.transaction, card, TransactionType.Deposit, amount, now);
    db.InsertTransaction(t, now);
    db.FlushCard(card, loaded, now);
    r := Ok(t);
  }

  /** `TransactionServiceImpl.withdraw`. */
  method Withdraw(db: Store, cardId: CardId, amount: Cents, now: Timestamp) returns (r: Result<Transaction>)
    requires db.Valid()
    modifies db
    ensures db.Valid()
    ensures var s := WithdrawStep(old(db.State()), cardId, amount, now, old(db.ids.transaction));
            && db.State() == s.after
            && (r.Ok? <==> s.result.Ok?)
            && (r.Err? ==> r.error == s.result.error)
            && (r.Ok? ==> fresh(r.value) && r.value.id == s.result.value && r.value.Row() == db.transactions[r.value.id])
    ensures db.ids == old(db.ids).(transaction := old(db.ids.transaction) + if r.Ok? then 1 else 0)
  {
    var found := db.LoadCard(cardId);
    if found.None? {
      return Err(NotFound(CardEntity, cardId));
    }
    var card := found.value;
    if card.balance < amount {
      return Err(InsufficientFunds);
    }
    var loaded := card.Row();
    card.balance := card.balance - amount;
    var t := new Transaction(db.ids.transaction, card, TransactionType.Withdraw, amount, now);
    db.InsertTransaction(t, now);
    db.FlushCard(card, loaded, now);
    r := Ok(t);
  }
}
