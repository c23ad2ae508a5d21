/** `TransferServiceImpl.createTransfer` and `getTransferById`: a transfer debits one
    card, credits another and records a COMPLETED Transfer, all in one unit of work.
    Neither the cards' status nor `from != to` is checked. */
module TransferService {
  import opened Base
  import opened Entities
  import opened Ledger
  import opened Store

  /** The rows a successful transfer leaves. Within one unit of work both lookups of
      the same id return the same managed card, so with `from == to` the one card is
      debited and then credited before it is flushed. */
  function Transferred(l: Ledger, fromId: CardId, toId: CardId, amount: Cents, now: Timestamp, id: RecordId): Ledger
    requires fromId in l.cards && toId in l.cards
  {
    var loadedFrom := l.cards[fromId];
    var loadedTo := l.cards[toId];
    var debited := loadedFrom.(balance := loadedFrom.balance - amount);
    var to := if toId == fromId then debited.(balance := debited.balance + amount)
              else loadedTo.(balance := loadedTo.balance + amount);
    var from := if toId == fromId then to else debited;
    var record := TransferPersisted(TransferRow(fromId, toId, amount, Some(TransferStatus.Completed), Some(now)), now);
    l.(cards := l.cards[fromId := Flushed(loadedFrom, from, now)][toId := Flushed(loadedTo, to, now)],
       transfers := l.transfers[id := record])
  }

  /** `createTransfer(request)`: the source card is looked up first, then the
      destination; a source balance strictly below the amount is refused. */
  function TransferStep(l: Ledger, fromId: CardId, toId: CardId, amount: Cents, now: Timestamp, id: RecordId): (s: Step<RecordId>)
    ensures fromId !in l.cards ==> s == Step(Err(NotFound(CardEntity, fromId)), l)
    ensures fromId in l.cards && toId !in l.cards ==> s == Step(Err(NotFound(CardEntity, toId)), l)
    ensures fromId in l.cards && toId in l.cards && l.cards[fromId].balance < amount ==>
              s == Step(Err(IllegalArgument(TransferInsufficientFunds)), l)
    ensures s.result.Ok? <==> fromId in l.cards && toId in l.cards && l.cards[fromId].balance >= amount
    ensures s.result.Ok? ==>
      && s.result.value == id
      && s.after.cards.Keys == l.cards.Keys
      && (forall k | k in l.cards && k != fromId && k != toId :: s.after.cards[k] == l.cards[k])
      && s.after.transfers == l.transfers[id := TransferRow(fromId, toId, amount, Some(TransferStatus.Completed), Some(now))]
      && s.after.(cards := l.cards, transfers := l.transfers) == l
    ensures s.result.Ok? && fromId != toId ==>
      && s.after.cards[fromId].balance == l.cards[fromId].balance - amount
      && s.after.cards[toId].balance == l.cards[toId].balance + amount
      && s.after.cards[fromId].balance >= 0
      && s.after.cards[fromId].(balance := l.cards[fromId].balance, updatedAt := l.cards[fromId].updatedAt) == l.cards[fromId]
      && s.after.cards[toId].(balance := l.cards[toId].balance, updatedAt := l.cards[toId].updatedAt) == l.cards[toId]
      && s.after.cards[fromId].updatedAt == (if amount == 0 then l.cards[fromId].updatedAt else Some(now))
      && s.after.cards[toId].updatedAt == (if amount == 0 then l.cards[toId].updatedAt else Some(now))
    ensures s.result.Ok? && fromId == toId ==> s.after.cards[fromId] == l.cards[fromId]
    ensures Invariant(l) ==> Invariant(s.after)
    ensures NonNegative(l.cards) && amount >= 0 ==> NonNegative(s.after.cards)
  {
    if fromId !in l.cards then Step(Err(NotFound(CardEntity, fromId)), l)
    else if toId !in l.cards then Step(Err(NotFound(CardEntity, toId)), l)
    else if l.cards[fromId].balance < amount then Step(Err(IllegalArgument(TransferInsufficientFunds)), l)
    else
      var after := Transferred(l, fromId, toId, amount, now, id);
      assert forall k | k in after.cards :: after.cards[k].number == l.cards[k].number;
      Step(Ok(id), after)
  }

  /** A transfer moves value between cards and never creates or destroys it: the
      total over all cards is unchanged, and each user's balance changes by what
      their cards sent and received. */
  lemma TransferBalances(l: Ledger, fromId: CardId, toId: CardId, amount: Cents, now: Timestamp, id: RecordId, user: UserId)
    ensures var s := TransferStep(l, fromId, toId, amount, now, id);
            && TotalBalance(s.after.cards) == TotalBalance(l.cards)
            && (s.result.Ok? ==>
                  UserBalance(s.after.cards, user)
                  == UserBalance(l.cards, user)
                     - (if l.cards[fromId].owner == user then amount else 0)
                     + (if l.cards[toId].owner == user then amount else 0))
  {
    var s := TransferStep(l, fromId, toId, amount, now, id);
    if s.result.Ok? {
      if fromId == toId {
        assert s.after.cards == l.cards;
      } else {
        var c1 := l.cards[fromId := s.after.cards[fromId]];
        assert s.after.cards == c1[toId := s.after.cards[toId]];
        SumAfterUpdate(l.cards, fromId, s.after.cards[fromId], None);
        SumAfterUpdate(c1, toId, s.after.cards[toId], None);
        SumAfterUpdate(l.cards, fromId, s.after.cards[fromId], Some(user));
        SumAfterUpdate(c1, toId, s.after.cards[toId], Some(user));
      }
    }
  }

  /** `getTransferById(id)`. */
  function GetTransferById(l: Ledger, id: RecordId): (r: Result<TransferRow>)
    ensures r.Ok? <==> id in l.transfers
    ensures r.Ok? ==> r.value == l.transfers[id]
    ensures r.Err? ==> r.error == NotFound(TransferEntity, id)
  {
    if id in l.transfers then Ok(l.transfers[id]) else Err(NotFound(TransferEntity, id))
  }

  /** The transfer a successful call returns can be read back by its id, and it is
      COMPLETED, never PENDING. */
  lemma CreatedTransferIsCompleted(l: Ledger, fromId: CardId, toId: CardId, amount: Cents, now: Timestamp, id: RecordId)
    ensures var s := TransferStep(l, fromId, toId, amount, now, id);
            s.result.Ok? ==>
              && GetTransferById(s.after, id) == Ok(TransferRow(fromId, toId, amount, Some(TransferStatus.Completed), Some(now)))
              && GetTransferById(s.after, id).value.status != Some(TransferStatus.Pending)
  {
  }

  /** What the two flushes of `MoveBalances` leave in the card table, whether or not the two
      managed cards are one object. */
  lemma FlushedRows(l: Ledger, fromId: CardId, toId: CardId, amount: Cents, now: Timestamp,
                    written: CardRow, flushed: CardRow, credited: CardRow, last: CardRow)
    requires fromId in l.cards && toId in l.cards
    requires written == if fromId == toId then l.cards[fromId]
                        else l.cards[fromId].(balance := l.cards[fromId].balance - amount)
    requires flushed == Flushed(l.cards[fromId], written, now)
    requires credited == if fromId == toId then flushed
                         else l.cards[toId].(balance := l.cards[toId].balance + amount)
    requires last == Flushed(l.cards[toId], credited, now)
    ensures l.cards[fromId := flushed][toId := last] == Transferred(l, fromId, toId, amount, now, 0).cards
  {
  }

  /** The debit and the credit on the managed cards (one object when `from == to`)
      and their flush, as `createTransfer` does them after its checks. */
  method MoveBalances(db: Store, fromCard: Card, toCard: Card, amount: Cents, now: Timestamp)
    requires db.Valid()
    requires fromCard.id in db.cards && toCard.id in db.cards
    requires fromCard.Row() == db.cards[fromCard.id] && toCard.Row() == db.cards[toCard.id]
    requires fromCard.id == toCard.id <==> fromCard == toCard
    modifies db, fromCard`balance, fromCard`updatedAt, toCard`balance, toCard`updatedAt
    ensures db.Valid()
    ensures db.State() == old(db.State()).(cards := Transferred(old(db.State()), fromCard.id, toCard.id, amount, now, 0).cards)
    ensures db.ids == old(db.ids)
  {
    ghost var l := db.State();
    var loadedFrom, loadedTo := fromCard.Row(), toCard.Row();
    fromCard.balance := fromCard.balance - amount;
    toCard.balance := toCard.balance + amount;
    ghost var written, credited0 := fromCard.Row(), toCard.Row();
    if fromCard == toCard {
      assert written == loadedFrom;
    } else {
      assert written == loadedFrom.(balance := loadedFrom.balance - amount);
      assert credited0 == loadedTo.(balance := loadedTo.balance + amount);
    }
    db.FlushCard(fromCard, loadedFrom, now);
    ghost var flushed, credited := fromCard.Row(), toCard.Row();
    assert fromCard != toCard ==> credited == credited0;
    db.FlushCard(toCard, loadedTo, now);
    FlushedRows(l, fromCard.id, toCard.id, amount, now, written, flushed, credited, toCard.Row());
  }

  /** `TransferServiceImpl.createTransfer`. */
  method CreateTransfer(db: Store, fromId: CardId, toId: CardId, amount: Cents, now: Timestamp) returns (r: Result<Transfer>)
    requires db.Valid()
    modifies db
    ensures db.Valid()
    ensures var s := TransferStep(old(db.State()), fromId, toId, amount, now, old(db.ids.transfer));
            && db.State() == s.after
            && (r.Ok? <==> s.result.Ok?)
            && (r.Err? ==> r.error == s.result.error)
            && (r.Ok? ==> fresh(r.value) && r.value.id == s.result.value && r.value.Row() == db.transfers[r.value.id])
    ensures db.ids == old(db.ids).(transfer := old(db.ids.transfer) + if r.Ok? then 1 else 0)
  {
    var foundFrom := db.LoadCard(fromId);
    if foundFrom.None? {
      return Err(NotFound(CardEntity, fromId));
    }
    var fromCard := foundFrom.value;
    var toCard: Card;
    if toId == fromId {
      toCard := fromCard;
    } else {
      var foundTo := db.LoadCard(toId);
      if foundTo.None? {
        return Err(NotFound(CardEntity, toId));
      }
      toCard := foundTo.value;
    }
    if fromCard.balance < amount {
      return Err(IllegalArgument(TransferInsufficientFunds));
    }
    var transfer := new Transfer(db.ids.transfer, fromCard, toCard, amount, Some(TransferStatus.Pending), now);
    MoveBalances(db, fromCard, toCard, amount, now);
    transfer.status := Some(TransferStatus.Completed);
    db.InsertTransfer(transfer, now);
    r := Ok(transfer);
  }
}
