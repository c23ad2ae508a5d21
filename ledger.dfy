/** The state of the ledger as values: the rows of the four repositories and the
    known users, the invariants every committed unit of work keeps, and balance sums
    (`SUM(c.balance)` over all cards or over one user's cards). */
module Ledger {
  import opened Base
  import opened Entities

  /** The rows of the user, card, transaction, transfer and card-block tables. */
  datatype Ledger = Ledger(
    users: set<UserId>,
    cards: map<CardId, CardRow>,
    transactions: map<RecordId, TransactionRow>,
    transfers: map<RecordId, TransferRow>,
    blocks: map<RecordId, BlockRow>)

  /** One service call as a unit of work: what it returns or throws, and the state
      after commit (or the unchanged state after rollback). */
  datatype Step<+T> = Step(result: Result<T>, after: Ledger)

  /** The card number column is unique. */
  ghost predicate UniqueNumbers(cards: map<CardId, CardRow>) {
    forall i, j | i in cards && j in cards && i != j :: cards[i].number != cards[j].number
  }

  /** No card has two block requests, whatever their status. */
  ghost predicate OneRequestPerCard(blocks: map<RecordId, BlockRow>) {
    forall a, b | a in blocks && b in blocks && a != b :: blocks[a].card != blocks[b].card
  }

  /** A request that is still PENDING has never been processed. */
  ghost predicate PendingUnprocessed(blocks: map<RecordId, BlockRow>) {
    forall a | a in blocks && blocks[a].status == Some(BlockRequestStatus.Pending) :: blocks[a].processedAt.None?
  }

  ghost predicate Invariant(l: Ledger) {
    UniqueNumbers(l.cards) && OneRequestPerCard(l.blocks) && PendingUnprocessed(l.blocks)
  }

  /** No card balance is negative. */
  ghost predicate NonNegative(cards: map<CardId, CardRow>) {
    forall k | k in cards :: cards[k].balance >= 0
  }

  // ---------------------------------------------------------------------------
  // Balance sums.
  // ---------------------------------------------------------------------------

  /** What a card contributes to a sum over all cards (`owner == None`) or over the
      cards of one user. */
  function Share(r: CardRow, owner: Option<UserId>): Cents {
    if owner.None? || r.owner == owner.value then r.balance else 0
  }

  ghost predicate IsLeast(m: int, s: set<int>) {
    m in s && forall x | x in s :: m <= x
  }

  lemma {:induction false} LeastOf(s: set<int>) returns (m: int)
    requires s != {}
    ensures IsLeast(m, s)
  {
    if forall z :: z !in s { assert false; }
    var y :| y in s;
    if s == {y} {
      m := y;
    } else {
      var r := LeastOf(s - {y});
      m := if y < r then y else r;
      forall x | x in s ensures m <= x {
        if x != y { assert x in s - {y}; }
      }
    }
  }

  lemma LeastExists(s: set<int>)
    requires s != {}
    ensures exists m :: IsLeast(m, s)
  {
    var m := LeastOf(s);
  }

  /** The smallest id of a non-empty set: a deterministic order in which to add. */
  function Least(s: set<int>): (m: int)
    requires s != {}
    ensures IsLeast(m, s)
  {
    LeastExists(s);
    var m :| m in s && forall x | x in s :: m <= x; m
  }

  /** The sum of the shares of the cards whose ids are in `keys`. */
  function SumOver(cards: map<CardId, CardRow>, keys: set<CardId>, owner: Option<UserId>): Cents
    requires keys <= cards.Keys
    decreases keys
  {
    if keys == {} then 0
    else
      var k := Least(keys);
      Share(cards[k], owner) + SumOver(cards, keys - {k}, owner)
  }

  function Sum(cards: map<CardId, CardRow>, owner: Option<UserId>): Cents {
    SumOver(cards, cards.Keys, owner)
  }

  /** The value held on all cards together. */
  function TotalBalance(cards: map<CardId, CardRow>): Cents {
    Sum(cards, None)
  }

  /** `SELECT SUM(c.balance) FROM Card c WHERE c.user.id = :userId`, with an empty
      sum read as ZERO. */
  function UserBalance(cards: map<CardId, CardRow>, user: UserId): Cents {
    Sum(cards, Some(user))
  }

  /** The order of addition does not matter: any card can be taken out first. */
  lemma {:induction false} SumOverPick(cards: map<CardId, CardRow>, keys: set<CardId>, k: CardId, owner: Option<UserId>)
    requires keys <= cards.Keys && k in keys
    ensures SumOver(cards, keys, owner) == Share(cards[k], owner) + SumOver(cards, keys - {k}, owner)
    decreases keys
  {
    var m := Least(keys);
    if m != k {
      SumOverPick(cards, keys - {m}, k, owner);
      SumOverPick(cards, keys - {k}, m, owner);
      assert keys - {m} - {k} == keys - {k} - {m};
    }
  }

  /** Only the shares of the summed cards matter. */
  lemma {:induction false} SumOverFrame(c1: map<CardId, CardRow>, c2: map<CardId, CardRow>, keys: set<CardId>, owner: Option<UserId>)
    requires keys <= c1.Keys && keys <= c2.Keys
    requires forall k | k in keys :: Share(c1[k], owner) == Share(c2[k], owner)
    ensures SumOver(c1, keys, owner) == SumOver(c2, keys, owner)
    decreases keys
  {
    if keys != {} {
      SumOverFrame(c1, c2, keys - {Least(keys)}, owner);
    }
  }

  /** Replacing one card's row changes the sum by the difference of its shares. */
  lemma SumAfterUpdate(cards: map<CardId, CardRow>, k: CardId, v: CardRow, owner: Option<UserId>)
    requires k in cards
    ensures Sum(cards[k := v], owner) == Sum(cards, owner) - Share(cards[k], owner) + Share(v, owner)
  {
    var c2 := cards[k := v];
    assert c2.Keys == cards.Keys;
    SumOverPick(c2, cards.Keys, k, owner);
    SumOverPick(cards, cards.Keys, k, owner);
    SumOverFrame(c2, cards, cards.Keys - {k}, owner);
  }

  /** Adding a new card adds its share. */
  lemma SumAfterInsert(cards: map<CardId, CardRow>, k: CardId, v: CardRow, owner: Option<UserId>)
    requires k !in cards
    ensures Sum(cards[k := v], owner) == Sum(cards, owner) + Share(v, owner)
  {
    var c2 := cards[k := v];
    assert c2.Keys - {k} == cards.Keys;
    SumOverPick(c2, c2.Keys, k, owner);
    SumOverFrame(c2, cards, cards.Keys, owner);
  }

  /** Removing a card removes its share. */
  lemma SumAfterRemove(cards: map<CardId, CardRow>, k: CardId, owner: Option<UserId>)
    requires k in cards
    ensures Sum(cards - {k}, owner) == Sum(cards, owner) - Share(cards[k], owner)
  {
    var c2 := cards - {k};
    assert c2.Keys == cards.Keys - {k};
    SumOverPick(cards, cards.Keys, k, owner);
    SumOverFrame(c2, cards, c2.Keys, owner);
  }

  lemma {:induction false} SumOverZero(cards: map<CardId, CardRow>, keys: set<CardId>, owner: Option<UserId>)
    requires keys <= cards.Keys
    requires forall k | k in keys :: Share(cards[k], owner) == 0
    ensures SumOver(cards, keys, owner) == 0
    decreases keys
  {
    if keys != {} {
      SumOverZero(cards, keys - {Least(keys)}, owner);
    }
  }

  lemma {:induction false} SumOverNonNegative(cards: map<CardId, CardRow>, keys: set<CardId>, owner: Option<UserId>)
    requires keys <= cards.Keys && NonNegative(cards)
    ensures SumOver(cards, keys, owner) >= 0
    decreases keys
  {
    if keys != {} {
      SumOverNonNegative(cards, keys - {Least(keys)}, owner);
    }
  }

  /** A user without cards has balance ZERO. */
  lemma UserBalanceWithoutCards(cards: map<CardId, CardRow>, user: UserId)
    requires forall k | k in cards :: cards[k].owner != user
    ensures UserBalance(cards, user) == 0
  {
    SumOverZero(cards, cards.Keys, Some(user));
  }

  /** Sums of non-negative balances are non-negative. */
  lemma SumNonNegative(cards: map<CardId, CardRow>, owner: Option<UserId>)
    requires NonNegative(cards)
    ensures Sum(cards, owner) >= 0
  {
    SumOverNonNegative(cards, cards.Keys, owner);
  }
}
