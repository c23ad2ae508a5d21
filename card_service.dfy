/** `CardServiceImpl`: creating, blocking, activating, finding and deleting cards, and
    a user's total balance. None of these is one transaction: each repository call
    commits on its own, and the one write of each operation is its last step. */
module CardService {
  import opened Base
  import opened Entities
  import opened Ledger
  import opened Store

  // ---------------------------------------------------------------------------
  // The operations on the ledger's rows.
  // ---------------------------------------------------------------------------

  /** `findById(id)`: the stored card, or NotFound. */
  function FindById(l: Ledger, id: CardId): (r: Result<CardRow>)
    ensures r.Ok? <==> id in l.cards
    ensures r.Ok? ==> r.value == l.cards[id]
    ensures r.Err? ==> r.error == NotFound(CardEntity, id)
  {
    if id in l.cards then Ok(l.cards[id]) else Err(NotFound(CardEntity, id))
  }

  /** `existsByCardNumber(number)`. */
  predicate NumberTaken(cards: map<CardId, CardRow>, number: string) {
    exists k | k in cards :: cards[k].number == number
  }

  /** `getUserBalance(userId)`: the sum over the user's cards, ZERO when the user
      has none (the query's empty SUM is null). */
  function GetUserBalance(l: Ledger, user: UserId): (b: Cents)
    ensures (forall k | k in l.cards :: l.cards[k].owner != user) ==> b == 0
    ensures NonNegative(l.cards) ==> 0 <= b <= TotalBalance(l.cards)
  {
    UserBalanceBounds(l.cards, user);
    UserBalance(l.cards, user)
  }

  /** `createCard(request)`: the user must exist and the number must be unused; the
      new card holds the requested fields, the requested balance, and ACTIVE. */
  function CreateCardStep(l: Ledger, owner: UserId, number: string, expiry: Date, balance: Cents,
                          now: Timestamp, id: CardId): (s: Step<CardId>)
    ensures owner !in l.users ==> s == Step(Err(NotFound(UserEntity, owner)), l)
    ensures owner in l.users && NumberTaken(l.cards, number) ==>
              s == Step(Err(IllegalArgument(DuplicateCardNumber)), l)
    ensures s.result.Ok? <==> owner in l.users && !NumberTaken(l.cards, number)
    ensures s.result.Ok? ==>
      && s.result.value == id
      && s.after.cards == l.cards[id := CardRow(owner, number, expiry, balance, Active, Some(now), Some(now))]
      && s.after.(cards := l.cards) == l
    ensures Invariant(l) && id !in l.cards ==> Invariant(s.after)
  {
    if owner !in l.users then Step(Err(NotFound(UserEntity, owner)), l)
    else if NumberTaken(l.cards, number) then Step(Err(IllegalArgument(DuplicateCardNumber)), l)
    else
      var created := CardPersisted(CardRow(owner, number, expiry, balance, Active, None, None), now);
      Step(Ok(id), l.(cards := l.cards[id := created]))
  }

  /** Saving a card whose status was changed to `status`: the dirty check always
      fires, so `updatedAt` is refreshed too. */
  function WithStatus(l: Ledger, id: CardId, status: CardStatus, now: Timestamp): Ledger
    requires id in l.cards
  {
    var loaded := l.cards[id];
    l.(cards := l.cards[id := Flushed(loaded, loaded.(status := status), now)])
  }

  /** `blockCardById(id)`: NotFound, or IllegalState when already BLOCKED; any other
      status becomes BLOCKED. */
  function BlockStep(l: Ledger, id: CardId, now: Timestamp): (s: Step<CardId>)
    ensures id !in l.cards ==> s == Step(Err(NotFound(CardEntity, id)), l)
    ensures id in l.cards && l.cards[id].status == Blocked ==> s == Step(Err(IllegalState(AlreadyBlocked)), l)
    ensures s.result.Ok? <==> id in l.cards && l.cards[id].status != Blocked
    ensures s.result.Ok? ==>
      && s.result.value == id
      && s.after.cards.Keys == l.cards.Keys
      && s.after.cards[id].status == Blocked
      && s.after.cards[id].updatedAt == Some(now)
      && s.after.cards[id].(status := l.cards[id].status, updatedAt := l.cards[id].updatedAt) == l.cards[id]
      && (forall k | k in l.cards && k != id :: s.after.cards[k] == l.cards[k])
      && s.after.(cards := l.cards) == l
    ensures Invariant(l) ==> Invariant(s.after)
  {
    if id !in l.cards then Step(Err(NotFound(CardEntity, id)), l)
    else if l.cards[id].status == Blocked then Step(Err(IllegalState(AlreadyBlocked)), l)
    else
      var after := WithStatus(l, id, Blocked, now);
      assert forall k | k in after.cards :: after.cards[k].number == l.cards[k].number;
      Step(Ok(id), after)
  }

  /** `activateCard(id)`: NotFound, IllegalState when already ACTIVE, IllegalState
      when the expiry date is strictly before `today`; any other status (BLOCKED or
      EXPIRED) becomes ACTIVE, also on the expiry date itself. */
  function ActivateStep(l: Ledger, id: CardId, today: Date, now: Timestamp): (s: Step<CardId>)
    ensures id !in l.cards ==> s == Step(Err(NotFound(CardEntity, id)), l)
    ensures id in l.cards && l.cards[id].status == Active ==> s == Step(Err(IllegalState(AlreadyActive)), l)
    ensures id in l.cards && l.cards[id].status != Active && l.cards[id].expiry < today ==>
              s == Step(Err(IllegalState(CardExpired)), l)
    ensures s.result.Ok? <==> id in l.cards && l.cards[id].status != Active && l.cards[id].expiry >= today
    ensures s.result.Ok? ==>
      && s.result.value == id
      && s.after.cards.Keys == l.cards.Keys
      && s.after.cards[id].status == Active
      && s.after.cards[id].updatedAt == Some(now)
      && s.after.cards[id].(status := l.cards[id].status, updatedAt := l.cards[id].updatedAt) == l.cards[id]
      && (forall k | k in l.cards && k != id :: s.after.cards[k] == l.cards[k])
      && s.after.(cards := l.cards) == l
    ensures Invariant(l) ==> Invariant(s.after)
  {
    if id !in l.cards then Step(Err(NotFound(CardEntity, id)), l)
    else if l.cards[id].status == Active then Step(Err(IllegalState(AlreadyActive)), l)
    else if l.cards[id].expiry < today then Step(Err(IllegalState(CardExpired)), l)
    else
      var after := WithStatus(l, id, Active, now);
      assert forall k | k in after.cards :: after.cards[k].number == l.cards[k].number;
      Step(Ok(id), after)
  }

  /** `deleteById(id)`: NotFound when no such card, otherwise its row is removed. */
  function DeleteStep(l: Ledger, id: CardId): (s: Step<CardId>)
    ensures s.result.Ok? <==> id in l.cards
    ensures s.result.Err? ==> s == Step(Err(NotFound(CardEntity, id)), l)
    ensures s.result.Ok? ==> s.result.value == id && s.after == l.(cards := l.cards - {id})
    ensures Invariant(l) ==> Invariant(s.after)
  {
    if id !in l.cards then Step(Err(NotFound(CardEntity, id)), l)
    else Step(Ok(id), l.(cards := l.cards - {id}))
  }

  // ---------------------------------------------------------------------------
  // Properties of the operations.
  // ---------------------------------------------------------------------------

  /** A user without cards has balance ZERO, and while no balance is negative a
      user's balance lies between ZERO and the total. */
  lemma UserBalanceBounds(cards: map<CardId, CardRow>, user: UserId)
    ensures (forall k | k in cards :: cards[k].owner != user) ==> UserBalance(cards, user) == 0
    ensures NonNegative(cards) ==> 0 <= UserBalance(cards, user) <= TotalBalance(cards)
  {
    if forall k | k in cards :: cards[k].owner != user {
      UserBalanceWithoutCards(cards, user);
    }
    if NonNegative(cards) {
      SumNonNegative(cards, Some(user));
      UserAtMostTotal(cards, cards.Keys, user);
    }
  }

  lemma {:induction false} UserAtMostTotal(cards: map<CardId, CardRow>, keys: set<CardId>, user: UserId)
    requires keys <= cards.Keys && NonNegative(cards)
    ensures SumOver(cards, keys, Some(user)) <= SumOver(cards, keys, None)
    decreases keys
  {
    if keys != {} {
      UserAtMostTotal(cards, keys - {Least(keys)}, user);
    }
  }

  /** Once a card is deleted, looking it up again fails with NotFound, and a second
      delete fails the same way. */
  lemma DeleteThenFind(l: Ledger, id: CardId)
    requires id in l.cards
    ensures var d := DeleteStep(l, id);
            && d.result.Ok?
            && FindById(d.after, id) == Err(NotFound(CardEntity, id))
            && DeleteStep(d.after, id) == Step(Err(NotFound(CardEntity, id)), d.after)
  {
  }

  /** Deleting a card takes its balance out of its owner's balance and the total. */
  lemma DeleteBalances(l: Ledger, id: CardId, user: UserId)
    requires id in l.cards
    ensures var d := DeleteStep(l, id);
            && TotalBalance(d.after.cards) == TotalBalance(l.cards) - l.cards[id].balance
            && UserBalance(d.after.cards, user)
               == UserBalance(l.cards, user) - (if l.cards[id].owner == user then l.cards[id].balance else 0)
  {
    SumAfterRemove(l.cards, id, None);
    SumAfterRemove(l.cards, id, Some(user));
  }

  /** A created card is found under the id it was given, and its number is then
      taken: a second request with the same number is refused. */
  lemma CreateThenFind(l: Ledger, owner: UserId, number: string, expiry: Date, balance: Cents,
                       now: Timestamp, id: CardId, id2: CardId)
    requires owner in l.users && !NumberTaken(l.cards, number)
    ensures var c := CreateCardStep(l, owner, number, expiry, balance, now, id);
            && FindById(c.after, id) == Ok(CardRow(owner, number, expiry, balance, Active, Some(now), Some(now)))
            && CreateCardStep(c.after, owner, number, expiry, balance, now, id2).result
               == Err(IllegalArgument(DuplicateCardNumber))
  {
    var c := CreateCardStep(l, owner, number, expiry, balance, now, id);
    assert c.after.cards[id].number == number;
  }

  /** Creating a card adds its balance to its owner's and to the total. */
  lemma CreateBalances(l: Ledger, owner: UserId, number: string, expiry: Date, balance: Cents,
                       now: Timestamp, id: CardId, user: UserId)
    requires id !in l.cards
    ensures var c := CreateCardStep(l, owner, number, expiry, balance, now, id);
            && TotalBalance(c.after.cards) == TotalBalance(l.cards) + (if c.result.Ok? then balance else 0)
            && UserBalance(c.after.cards, user)
               == UserBalance(l.cards, user) + (if c.result.Ok? && owner == user then balance else 0)
  {
    var c := CreateCardStep(l, owner, number, expiry, balance, now, id);
    if c.result.Ok? {
      SumAfterInsert(l.cards, id, c.after.cards[id], None);
      SumAfterInsert(l.cards, id, c.after.cards[id], Some(user));
    }
  }

  /** Blocking and then activating a card that has not expired brings it back to
      ACTIVE with every field but `updatedAt` as before. */
  lemma {:induction false} BlockThenActivate(l: Ledger, id: CardId, today: Date, now1: Timestamp, now2: Timestamp)
    requires id in l.cards && l.cards[id].status == Active && l.cards[id].expiry >= today
    ensures var b := BlockStep(l, id, now1);
            var a := ActivateStep(b.after, id, today, now2);
            && b.result.Ok? && a.result.Ok?
            && a.after.cards == l.cards[id := l.cards[id].(updatedAt := Some(now2))]
            && a.after.(cards := l.cards) == l
  {
    var b := BlockStep(l, id, now1);
    assert b.result.Ok?;
    var a := ActivateStep(b.after, id, today, now2);
    assert a.result.Ok?;
    assert a.after.cards[id] == l.cards[id].(updatedAt := Some(now2));
  }

  /** Neither blocking nor activating moves money. */
  lemma StatusChangesKeepBalances(l: Ledger, id: CardId, today: Date, now: Timestamp, user: UserId)
    ensures var b := BlockStep(l, id, now);
            UserBalance(b.after.cards, user) == UserBalance(l.cards, user)
    ensures var a := ActivateStep(l, id, today, now);
            UserBalance(a.after.cards, user) == UserBalance(l.cards, user)
  {
    if id in l.cards {
      var b := BlockStep(l, id, now);
      SumAfterUpdate(l.cards, id, b.after.cards[id], Some(user));
      assert b.result.Ok? ==> b.after.cards == l.cards[id := b.after.cards[id]];
      var a := ActivateStep(l, id, today, now);
      SumAfterUpdate(l.cards, id, a.after.cards[id], Some(user));
      assert a.result.Ok? ==> a.after.cards == l.cards[id := a.after.cards[id]];
    }
  }

  // ---------------------------------------------------------------------------
  // The service methods on the store.
  // ---------------------------------------------------------------------------

  /** `CardServiceImpl.findById`. */
  method FindCard(db: Store, id: CardId) returns (r: Result<Card>)
    ensures r.Ok? <==> FindById(db.State(), id).Ok?
    ensures r.Err? ==> r.error == FindById(db.State(), id).error
    ensures r.Ok? ==> r.value.id == id && r.value.Row() == FindById(db.State(), id).value
  {
    var found := db.LoadCard(id);
    if found.None? {
      return Err(NotFound(CardEntity, id));
    }
    r := Ok(found.value);
  }

  /** `CardServiceImpl.createCard`. */
  method CreateCard(db: Store, owner: UserId, number: string, expiry: Date, balance: Cents, now: Timestamp)
    returns (r: Result<Card>)
    requires db.Valid()
    modifies db
    ensures db.Valid()
    ensures var s := CreateCardStep(old(db.State()), owner, number, expiry, balance, now, old(db.ids.card));
            && db.State() == s.after
            && (r.Ok? <==> s.result.Ok?)
            && (r.Err? ==> r.error == s.result.error)
            && (r.Ok? ==> fresh(r.value) && r.value.id == s.result.value && r.value.Row() == db.cards[r.value.id])
    ensures db.ids == old(db.ids).(card := old(db.ids.card) + if r.Ok? then 1 else 0)
  {
    if owner !in db.users {
      return Err(NotFound(UserEntity, owner));
    }
    if exists k | k in db.cards :: db.cards[k].number == number {
      return Err(IllegalArgument(DuplicateCardNumber));
    }
    var card := new Card(db.ids.card, owner, number, expiry);
    card.balance := balance;
    card.status := Active;
    db.InsertCard(card, now);
    r := Ok(card);
  }

  /** `CardServiceImpl.blockCardById`. */
  method BlockCardById(db: Store, id: CardId, now: Timestamp) returns (r: Result<Card>)
    requires db.Valid()
    modifies db
    ensures db.Valid()
    ensures var s := BlockStep(old(db.State()), id, now);
            && db.State() == s.after
            && (r.Ok? <==> s.result.Ok?)
            && (r.Err? ==> r.error == s.result.error)
            && (r.Ok? ==> fresh(r.value) && r.value.id == id && r.value.Row() == db.cards[id])
    ensures db.ids == old(db.ids)
  {
    var found := db.LoadCard(id);
    if found.None? {
      return Err(NotFound(CardEntity, id));
    }
    var card := found.value;
    if card.status == Blocked {
      return Err(IllegalState(AlreadyBlocked));
    }
    var loaded := card.Row();
    card.status := Blocked;
    db.FlushCard(card, loaded, now);
    r := Ok(card);
  }

  /** `CardServiceImpl.activateCard`, with `LocalDate.now()` passed as `today`. */
  method ActivateCard(db: Store, id: CardId, today: Date, now: Timestamp) returns (r: Result<Card>)
    requires db.Valid()
    modifies db
    ensures db.Valid()
    ensures var s := ActivateStep(old(db.State()), id, today, now);
            && db.State() == s.after
            && (r.Ok? <==> s.result.Ok?)
            && (r.Err? ==> r.error == s.result.error)
            && (r.Ok? ==> fresh(r.value) && r.value.id == id && r.value.Row() == db.cards[id])
    ensures db.ids == old(db.ids)
  {
    var found := db.LoadCard(id);
    if found.None? {
      return Err(NotFound(CardEntity, id));
    }
    var card := found.value;
    if card.status == Active {
      return Err(IllegalState(AlreadyActive));
    }
    if card.expiryDate < today {
      return Err(IllegalState(CardExpired));
    }
    var loaded := card.Row();
    card.status := Active;
    db.FlushCard(card, loaded, now);
    r := Ok(card);
  }

  /** `CardServiceImpl.deleteById`. */
  method DeleteById(db: Store, id: CardId) returns (r: Result<CardId>)
    requires db.Valid()
    modifies db
    ensures db.Valid()
    ensures var s := DeleteStep(old(db.State()), id);
            db.State() == s.after && r == s.result
    ensures db.ids == old(db.ids)
  {
    if id !in db.cards {
      return Err(NotFound(CardEntity, id));
    }
    db.DeleteCard(id);
    r := Ok(id);
  }
}
