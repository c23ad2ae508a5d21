/** `TransferValidator.isValid(transfer, context)`: five independent checks on a
    transfer and its two cards, each adding its own message to the context. No
    annotation applies it, and `createTransfer` checks only the source balance. */
module TransferValidator {
  import opened Base
  import opened Entities
  import opened Ledger
  import TransferService

  /** The five reasons, in the order the checks run. */
  datatype Violation =
    | SameCard
    | NonPositiveAmount
    | SourceNotActive
    | TargetNotActive
    | SourceInsufficientFunds

  /** The message each check adds to the context. */
  function Message(v: Violation): string {
    match v
    case SameCard => "Cannot transfer to the same card"
    case NonPositiveAmount => "Transfer amount must be positive"
    case SourceNotActive => "Source card is not active"
    case TargetNotActive => "Target card is not active"
    case SourceInsufficientFunds => "Insufficient funds on source card"
  }

  /** The position of a check in `isValid`. */
  function Rank(v: Violation): nat {
    match v
    case SameCard => 0
    case NonPositiveAmount => 1
    case SourceNotActive => 2
    case TargetNotActive => 3
    case SourceInsufficientFunds => 4
  }

  /** A Transfer with its two cards as they are read through `getFromCard()` and
      `getToCard()`. */
  datatype Candidate = Candidate(fromId: CardId, from: CardRow, toId: CardId, to: CardRow, amount: Cents)

  /** What `isValid` returns, and the messages it added, in order. */
  datatype Verdict = Verdict(valid: bool, violations: seq<Violation>)

  /** The messages are in the order the checks run. */
  ghost predicate InCheckOrder(vs: seq<Violation>) {
    forall i, j | 0 <= i < j < |vs| :: Rank(vs[i]) < Rank(vs[j])
  }

  /** Every message so far comes from a check before the `k`-th. */
  ghost predicate Before(vs: seq<Violation>, k: nat) {
    forall i | 0 <= i < |vs| :: Rank(vs[i]) < k
  }

  /** The messages after one more check: `v` is added when the check fails. */
  function Check(vs: seq<Violation>, failed: bool, v: Violation): (r: seq<Violation>)
    requires InCheckOrder(vs) && Before(vs, Rank(v))
    ensures InCheckOrder(r) && Before(r, Rank(v) + 1)
    ensures v in r <==> failed
    ensures r == [] <==> vs == [] && !failed
  {
    if failed then vs + [v] else vs
  }

  /** A check adds no message but its own. */
  lemma CheckKeeps(vs: seq<Violation>, failed: bool, v: Violation, x: Violation)
    requires InCheckOrder(vs) && Before(vs, Rank(v)) && x != v
    ensures x in Check(vs, failed, v) <==> x in vs
  {
    if failed {
      assert Check(vs, failed, v) == vs + [v];
    }
  }

  /** Whether the check that adds `v` fails on `c`. */
  predicate Fails(c: Candidate, v: Violation) {
    match v
    case SameCard => c.fromId == c.toId
    case NonPositiveAmount => c.amount <= 0
    case SourceNotActive => c.from.status != Active
    case TargetNotActive => c.to.status != Active
    case SourceInsufficientFunds => c.from.balance < c.amount
  }

  /** `isValid`: a null transfer is valid; otherwise every check runs, none stops
      the others, and the result is false exactly when one of them failed. */
  function IsValid(t: Option<Candidate>): (v: Verdict)
    ensures t.None? ==> v == Verdict(true, [])
    ensures v.valid <==> v.violations == []
    ensures v.valid <==>
              t.None? || (t.value.fromId != t.value.toId && t.value.amount > 0 && t.value.from.status == Active
                          && t.value.to.status == Active && t.value.from.balance >= t.value.amount)
    ensures InCheckOrder(v.violations)
  {
    match t
    case None => Verdict(true, [])
    case Some(c) =>
      var valid := !Fails(c, SameCard) && !Fails(c, NonPositiveAmount) && !Fails(c, SourceNotActive)
                   && !Fails(c, TargetNotActive) && !Fails(c, SourceInsufficientFunds);
      assert RankedViolation(0) == SameCard && RankedViolation(1) == NonPositiveAmount;
      assert RankedViolation(2) == SourceNotActive && RankedViolation(3) == TargetNotActive;
      assert RankedViolation(4) == SourceInsufficientFunds;
      Verdict(valid, Prefix(c, 5))
  }

  /** The messages after the first `n` checks. */
  function Prefix(c: Candidate, n: nat): (vs: seq<Violation>)
    requires n <= 5
    ensures InCheckOrder(vs) && Before(vs, n)
    ensures vs == [] <==> forall k | 0 <= k < n :: !Fails(c, RankedViolation(k))
  {
    if n == 0 then []
    else
      var v := RankedViolation(n - 1);
      Check(Prefix(c, n - 1), Fails(c, v), v)
  }

  /** The check in position `k`. */
  function RankedViolation(k: nat): (v: Violation)
    requires k < 5
    ensures Rank(v) == k
  {
    if k == 0 then SameCard
    else if k == 1 then NonPositiveAmount
    else if k == 2 then SourceNotActive
    else if k == 3 then TargetNotActive
    else SourceInsufficientFunds
  }

  /** After `n` checks, a message is there exactly when its check ran and failed. */
  lemma {:induction false} PrefixReason(c: Candidate, n: nat, v: Violation)
    requires n <= 5
    ensures v in Prefix(c, n) <==> Rank(v) < n && Fails(c, v)
  {
    if n > 0 {
      var w := RankedViolation(n - 1);
      PrefixReason(c, n - 1, v);
      if v != w {
        CheckKeeps(Prefix(c, n - 1), Fails(c, w), w, v);
      }
    }
  }

  /** Each failed check leaves its own message, and only a failed check does. */
  lemma ViolationReason(c: Candidate, v: Violation)
    ensures v in IsValid(Some(c)).violations <==> Fails(c, v)
  {
    PrefixReason(c, 5, v);
  }

  /** The transfer between two stored cards, as the validator would see it. */
  function CandidateOf(l: Ledger, fromId: CardId, toId: CardId, amount: Cents): Candidate
    requires fromId in l.cards && toId in l.cards
  {
    Candidate(fromId, l.cards[fromId], toId, l.cards[toId], amount)
  }

  /** Every transfer the validator accepts, `createTransfer` accepts too: it moves a
      positive amount between two distinct cards and leaves the source non-negative. */
  lemma ValidTransferIsAccepted(l: Ledger, fromId: CardId, toId: CardId, amount: Cents, now: Timestamp, id: RecordId)
    requires fromId in l.cards && toId in l.cards
    requires IsValid(Some(CandidateOf(l, fromId, toId, amount))).valid
    ensures var s := TransferService.TransferStep(l, fromId, toId, amount, now, id);
            && s.result == Ok(id)
            && fromId != toId && amount > 0
            && s.after.cards[fromId].balance == l.cards[fromId].balance - amount >= 0
            && s.after.cards[toId].balance == l.cards[toId].balance + amount
  {
    ViolationReason(CandidateOf(l, fromId, toId, amount), SameCard);
    ViolationReason(CandidateOf(l, fromId, toId, amount), SourceInsufficientFunds);
  }

  /** A transfer of a covered, positive amount from a card that is not ACTIVE to
      itself fails exactly three checks, reported in check order. */
  lemma SelfTransferFromInactiveCard(c: Candidate)
    requires c.fromId == c.toId && c.from == c.to && c.from.status != Active
    requires 0 < c.amount <= c.from.balance
    ensures IsValid(Some(c)) == Verdict(false, [SameCard, SourceNotActive, TargetNotActive])
  {
    assert Prefix(c, 1) == [SameCard];
    assert Prefix(c, 2) == [SameCard];
    assert Prefix(c, 3) == [SameCard, SourceNotActive];
    assert Prefix(c, 4) == [SameCard, SourceNotActive, TargetNotActive];
    assert Prefix(c, 5) == [SameCard, SourceNotActive, TargetNotActive];
  }

  /** The converse fails: `createTransfer` accepts a transfer from a BLOCKED card to
      itself, which the validator rejects for three reasons. */
  lemma AcceptedTransferCanBeInvalid()
    ensures var card := CardRow(7, "4000000000000002", 30, 500, Blocked, None, None);
            var l := Ledger({7}, map[1 := card], map[], map[], map[]);
            && TransferService.TransferStep(l, 1, 1, 200, 0, 1).result == Ok(1)
            && IsValid(Some(CandidateOf(l, 1, 1, 200))) == Verdict(false, [SameCard, SourceNotActive, TargetNotActive])
  {
    var card := CardRow(7, "4000000000000002", 30, 500, Blocked, None, None);
    var l := Ledger({7}, map[1 := card], map[], map[], map[]);
    SelfTransferFromInactiveCard(CandidateOf(l, 1, 1, 200));
  }
}
