/** `CardBlockServiceImpl.createBlockRequest` and `approveBlockRequest`: a user asks
    for a card to be blocked, and an administrator's approval blocks it. Each call is
    one transaction. */
module CardBlockService {
  import opened Base
  import opened Entities
  import opened Ledger
  import opened Store

  /** `existsByCardId(cardId)`: some request, whatever its status, names the card. */
  predicate HasRequest(blocks: map<RecordId, BlockRow>, cardId: CardId) {
    exists k | k in blocks :: blocks[k].card == cardId
  }

  /** `createBlockRequest(request)`: the card and its owner must exist, and the card
      must have no request at all; the new request is PENDING, stamped `now`, and
      made for the card's owner. The card itself is not changed. */
  function CreateRequestStep(l: Ledger, cardId: CardId, now: Timestamp, id: RecordId): (s: Step<RecordId>)
    ensures cardId !in l.cards ==> s == Step(Err(NotFound(CardEntity, cardId)), l)
    ensures cardId in l.cards && l.cards[cardId].owner !in l.users ==>
              s == Step(Err(NotFound(UserEntity, l.cards[cardId].owner)), l)
    ensures cardId in l.cards && l.cards[cardId].owner in l.users && HasRequest(l.blocks, cardId) ==>
              s == Step(Err(IllegalState(DuplicateBlockRequest)), l)
    ensures s.result.Ok? <==>
              cardId in l.cards && l.cards[cardId].owner in l.users && !HasRequest(l.blocks, cardId)
    ensures s.result.Ok? ==>
      && s.result.value == id
      && s.after.blocks == l.blocks[id := BlockRow(cardId, l.cards[cardId].owner, Some(BlockRequestStatus.Pending), Some(now), None)]
      && s.after.(blocks := l.blocks) == l
    ensures s.after.cards == l.cards
    ensures Invariant(l) && id !in l.blocks ==> Invariant(s.after)
  {
    if cardId !in l.cards then Step(Err(NotFound(CardEntity, cardId)), l)
    else if l.cards[cardId].owner !in l.users then Step(Err(NotFound(UserEntity, l.cards[cardId].owner)), l)
    else if HasRequest(l.blocks, cardId) then Step(Err(IllegalState(DuplicateBlockRequest)), l)
    else
      var request := BlockPersisted(BlockRow(cardId, l.cards[cardId].owner, None, None, None), now);
      Step(Ok(id), l.(blocks := l.blocks[id := request]))
  }

  /** `approveBlockRequest(blockId)`: NotFound when there is no such request; loading
      it loads its card, which fails when the card row is gone; a request that is not
      PENDING is refused. Otherwise the card is set BLOCKED (even when it already is)
      and the request APPROVED, and both are flushed with their @PreUpdate hooks. */
  function ApproveStep(l: Ledger, blockId: RecordId, now: Timestamp): (s: Step<RecordId>)
    ensures blockId !in l.blocks ==> s == Step(Err(NotFound(CardBlockEntity, blockId)), l)
    ensures blockId in l.blocks && l.blocks[blockId].card !in l.cards ==>
              s == Step(Err(NotFound(CardEntity, l.blocks[blockId].card)), l)
    ensures blockId in l.blocks && l.blocks[blockId].card in l.cards
            && l.blocks[blockId].status != Some(BlockRequestStatus.Pending) ==>
              s == Step(Err(IllegalState(RequestAlreadyProcessed)), l)
    ensures s.result.Ok? <==>
              blockId in l.blocks && l.blocks[blockId].card in l.cards
              && l.blocks[blockId].status == Some(BlockRequestStatus.Pending)
    ensures s.result.Ok? ==>
      var request := l.blocks[blockId];
      var card := l.cards[request.card];
      && s.result.value == blockId
      && s.after.blocks == l.blocks[blockId := request.(status := Some(BlockRequestStatus.Approved), processedAt := Some(now))]
      && s.after.cards.Keys == l.cards.Keys
      && s.after.cards[request.card].status == Blocked
      && s.after.cards[request.card].(status := card.status, updatedAt := card.updatedAt) == card
      && (card.status == Blocked ==> s.after.cards[request.card] == card)
      && (card.status != Blocked ==> s.after.cards[request.card].updatedAt == Some(now))
      && (forall k | k in l.cards && k != request.card :: s.after.cards[k] == l.cards[k])
      && s.after.(cards := l.cards, blocks := l.blocks) == l
    ensures Invariant(l) ==> Invariant(s.after)
  {
    if blockId !in l.blocks then Step(Err(NotFound(CardBlockEntity, blockId)), l)
    else
      var request := l.blocks[blockId];
      if request.card !in l.cards then Step(Err(NotFound(CardEntity, request.card)), l)
      else if request.status != Some(BlockRequestStatus.Pending) then Step(Err(IllegalState(RequestAlreadyProcessed)), l)
      else
        var card := l.cards[request.card];
        var blocked := Flushed(card, card.(status := Blocked), now);
        var approved := BlockUpdated(request.(status := Some(BlockRequestStatus.Approved)), now);
        var after := l.(cards := l.cards[request.card := blocked], blocks := l.blocks[blockId := approved]);
        assert forall k | k in after.cards :: after.cards[k].number == l.cards[k].number;
        assert forall k | k in after.blocks :: after.blocks[k].card == l.blocks[k].card;
        Step(Ok(blockId), after)
  }

  // ---------------------------------------------------------------------------
  // Properties of the two operations together.
  // ---------------------------------------------------------------------------

  /** A card has at most one request for good: once one is made, every later request
      for the card is refused, also after approval. */
  lemma {:induction false} RequestOnlyOnce(l: Ledger, cardId: CardId, now1: Timestamp, id1: RecordId,
                                           now2: Timestamp, id2: RecordId, now3: Timestamp, id3: RecordId)
    requires CreateRequestStep(l, cardId, now1, id1).result.Ok?
    ensures var c := CreateRequestStep(l, cardId, now1, id1);
            && CreateRequestStep(c.after, cardId, now2, id2).result == Err(IllegalState(DuplicateBlockRequest))
            && var a := ApproveStep(c.after, id1, now2);
               CreateRequestStep(a.after, cardId, now3, id3).result == Err(IllegalState(DuplicateBlockRequest))
  {
    var c := CreateRequestStep(l, cardId, now1, id1);
    assert c.after.blocks[id1].card == cardId;
    var a := ApproveStep(c.after, id1, now2);
    assert a.after.blocks[id1].card == cardId;
  }

  /** Approving the request just made blocks the card and leaves the request
      APPROVED with both timestamps; approving it again is refused and changes
      nothing. */
  lemma {:induction false} CreateThenApprove(l: Ledger, cardId: CardId, now1: Timestamp, id: RecordId, now2: Timestamp, now3: Timestamp)
    requires CreateRequestStep(l, cardId, now1, id).result.Ok?
    ensures var c := CreateRequestStep(l, cardId, now1, id);
            var a := ApproveStep(c.after, id, now2);
            && a.result == Ok(id)
            && a.after.cards[cardId].status == Blocked
            && a.after.blocks[id] == BlockRow(cardId, l.cards[cardId].owner, Some(BlockRequestStatus.Approved), Some(now1), Some(now2))
            && ApproveStep(a.after, id, now3) == Step(Err(IllegalState(RequestAlreadyProcessed)), a.after)
  {
    var c := CreateRequestStep(l, cardId, now1, id);
    assert c.after.blocks[id].status == Some(BlockRequestStatus.Pending);
    var a := ApproveStep(c.after, id, now2);
    assert a.result.Ok?;
    assert a.after.blocks[id].status == Some(BlockRequestStatus.Approved);
  }

  /** Neither operation moves money. */
  lemma BlockRequestsKeepBalances(l: Ledger, cardId: CardId, blockId: RecordId, now: Timestamp, id: RecordId, user: UserId)
    ensures UserBalance(CreateRequestStep(l, cardId, now, id).after.cards, user) == UserBalance(l.cards, user)
    ensures var a := ApproveStep(l, blockId, now);
            UserBalance(a.after.cards, user) == UserBalance(l.cards, user)
  {
    var a := ApproveStep(l, blockId, now);
    if a.result.Ok? {
      var k := l.blocks[blockId].card;
      assert a.after.cards == l.cards[k := a.after.cards[k]];
      SumAfterUpdate(l.cards, k, a.after.cards[k], Some(user));
    }
  }

  // ---------------------------------------------------------------------------
  // The service methods on the store.
  // ---------------------------------------------------------------------------

  /** `CardBlockServiceImpl.createBlockRequest`. */
  method CreateBlockRequest(db: Store, cardId: CardId, now: Timestamp) returns (r: Result<CardBlock>)
    requires db.Valid()
    modifies db
    ensures db.Valid()
    ensures var s := CreateRequestStep(old(db.State()), cardId, now, old(db.ids.block));
            && db.State() == s.after
            && (r.Ok? <==> s.result.Ok?)
            && (r.Err? ==> r.error == s.result.error)
            && (r.Ok? ==> fresh(r.value) && r.value.id == s.result.value && r.value.Row() == db.blocks[r.value.id])
    ensures db.ids == old(db.ids).(block := old(db.ids.block) + if r.Ok? then 1 else 0)
  {
    var found := db.LoadCard(cardId);
    if found.None? {
      return Err(NotFound(CardEntity, cardId));
    }
    var card := found.value;
    if card.owner !in db.users {
      return Err(NotFound(UserEntity, card.owner));
    }
    if exists k | k in db.blocks :: db.blocks[k].card == cardId {
      return Err(IllegalState(DuplicateBlockRequest));
    }
    var request := new CardBlock(db.ids.block, card, card.owner);
    db.InsertBlock(request, now);
    r := Ok(request);
  }

  /** `CardBlockServiceImpl.approveBlockRequest`. */
  method ApproveBlockRequest(db: Store, blockId: RecordId, now: Timestamp) returns (r: Result<CardBlock>)
    requires db.Valid()
    modifies db
    ensures db.Valid()
    ensures var s := ApproveStep(old(db.State()), blockId, now);
            && db.State() == s.after
            && (r.Ok? <==> s.result.Ok?)
            && (r.Err? ==> r.error == s.result.error)
            && (r.Ok? ==> fresh(r.value) && r.value.id == blockId && r.value.Row() == db.blocks[blockId])
    ensures db.ids == old(db.ids)
  {
    if blockId !in db.blocks {
      return Err(NotFound(CardBlockEntity, blockId));
    }
    var loadedRequest := db.blocks[blockId];
    var found := db.LoadCard(loadedRequest.card);
    if found.None? {
      return Err(NotFound(CardEntity, loadedRequest.card));
    }
    var card := found.value;
    var request := new CardBlock.Load(blockId, card, loadedRequest);
    if request.status != Some(BlockRequestStatus.Pending) {
      return Err(IllegalState(RequestAlreadyProcessed));
    }
    var loadedCard := card.Row();
    card.status := Blocked;
    db.FlushCard(card, loadedCard, now);
    request.status := Some(BlockRequestStatus.Approved);
    db.FlushBlock(request, loadedRequest, now);
    r := Ok(request);
  }
}
