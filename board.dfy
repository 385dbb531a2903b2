/** The community cards: a board of five slots filled in order, and the
    search for the best five-card hand a player can make with it. */
module Boards {
  import opened Prelude
  import opened CardErrors
  import opened Cards
  import opened Hands
  import opened Itertools

  /** The number of slots on a board. */
  const Capacity: nat := 5

  /** The cards held by the occupied slots, in slot order (`filter_map`). */
  function Somes(slots: seq<Option<Card>>): seq<Card> {
    if slots == [] then []
    else (if slots[0].Some? then [slots[0].value] else []) + Somes(slots[1..])
  }

  /** When exactly the first `k` slots are occupied, they are the cards, in
      order. */
  lemma {:induction false} SomesOfFilledPrefix(slots: seq<Option<Card>>, k: nat)
    requires k <= |slots|
    requires forall i :: 0 <= i < |slots| ==> (slots[i].Some? <==> i < k)
    ensures |Somes(slots)| == k
    ensures forall i :: 0 <= i < k ==> Somes(slots)[i] == slots[i].value
  {
    if slots != [] {
      SomesOfFilledPrefix(slots[1..], if k == 0 then 0 else k - 1);
    }
  }

  /** The five-card hands of `cards`, one per combination, in the order
      `combinations(5)` enumerates them. */
  function FiveCardHands(cards: seq<Card>): (hands: seq<PokerHand>)
    ensures |hands| == |Combinations(cards, 5)|
    ensures forall i :: 0 <= i < |hands| ==> hands[i].cards == Combinations(cards, 5)[i]
  {
    var combos := Combinations(cards, 5);
    AllCombinationsHaveLength(cards, 5);
    seq(|combos|, i requires 0 <= i < |combos| => PokerHand(combos[i]))
  }

  /** The running maximum kept by the best-hand search: nothing before the
      first hand, then the first hand, then `Ord::max` of the best so far and
      the next hand. */
  function RunningBest(hands: seq<PokerHand>, pc: (PokerHand, PokerHand) -> Option<Ordering>): (best: Option<PokerHand>)
    requires IsTotalOrder(pc)
    ensures best.Some? <==> |hands| > 0
  {
    if hands == [] then None
    else
      var last := hands[|hands| - 1];
      match RunningBest(hands[..|hands| - 1], pc)
      case None => Some(last)
      case Some(m) => Some(Max(m, last, pc))
  }

  /** The position of the running maximum: the last hand that no hand
      beats. */
  function BestIndex(hands: seq<PokerHand>, pc: (PokerHand, PokerHand) -> Option<Ordering>): (k: nat)
    requires IsTotalOrder(pc)
    requires |hands| > 0
    ensures k < |hands| && RunningBest(hands, pc) == Some(hands[k])
  {
    var n := |hands|;
    if n == 1 then 0
    else
      var k0 := BestIndex(hands[..n - 1], pc);
      CmpReverse(hands[k0], hands[n - 1], pc);
      if Cmp(hands[k0], hands[n - 1], pc) == Greater then k0 else n - 1
  }

  /** No hand beats the running maximum. */
  lemma {:induction false} RunningBestIsGreatest(hands: seq<PokerHand>, pc: (PokerHand, PokerHand) -> Option<Ordering>, j: nat)
    requires IsTotalOrder(pc)
    requires j < |hands|
    ensures Cmp(hands[BestIndex(hands, pc)], hands[j], pc) != Less
  {
    var n := |hands|;
    var last := hands[n - 1];
    CmpReverse(last, last, pc);
    if n > 1 {
      var init := hands[..n - 1];
      var m := hands[BestIndex(init, pc)];
      CmpReverse(m, last, pc);
      if j < n - 1 {
        RunningBestIsGreatest(init, pc, j);
        var h := hands[j];
        assert init[j] == h;
        if Cmp(m, last, pc) != Greater {
          CmpReverse(m, h, pc);
          CmpTransitive(h, m, last, pc);
          CmpReverse(h, last, pc);
        }
      }
    }
  }

  /** Every hand after the running maximum is strictly weaker: on a tie the
      later hand is kept. */
  lemma {:induction false} RunningBestIsLast(hands: seq<PokerHand>, pc: (PokerHand, PokerHand) -> Option<Ordering>, j: nat)
    requires IsTotalOrder(pc)
    requires j < |hands| && BestIndex(hands, pc) < j
    ensures Cmp(hands[j], hands[BestIndex(hands, pc)], pc) == Less
  {
    var n := |hands|;
    var init := hands[..n - 1];
    var k0 := BestIndex(init, pc);
    CmpReverse(hands[k0], hands[n - 1], pc);
    if j < n - 1 {
      RunningBestIsLast(init, pc, j);
    }
  }

  /** The result of the search over all combinations of `cards` is one of
      those combinations, and no five cards drawn from `cards` (in order)
      make a better hand. */
  lemma BestHandIsGreatest(cards: seq<Card>, pc: (PokerHand, PokerHand) -> Option<Ordering>)
    requires IsTotalOrder(pc)
    requires |cards| >= 5
    ensures RunningBest(FiveCardHands(cards), pc).Some?
    ensures IsSubsequence(RunningBest(FiveCardHands(cards), pc).value.cards, cards)
    ensures forall c :: |c| == 5 && IsSubsequence(c, cards) ==>
              Cmp(RunningBest(FiveCardHands(cards), pc).value, PokerHand(c), pc) != Less
  {
    var hands := FiveCardHands(cards);
    var combos := Combinations(cards, 5);
    CombinationsNonEmpty(cards, 5);
    var k := BestIndex(hands, pc);
    assert combos[k] in combos;
    CombinationsAreSubsequences(cards, 5, combos[k]);
    forall c | |c| == 5 && IsSubsequence(c, cards)
      ensures Cmp(hands[k], PokerHand(c), pc) != Less
    {
      SubsequencesAreCombinations(cards, 5, c);
      var j :| 0 <= j < |combos| && combos[j] == c;
      assert hands[j] == PokerHand(c);
      RunningBestIsGreatest(hands, pc, j);
    }
  }

  class Board {
    /** The five slots; occupied ones form a prefix. */
    const slots: array<Option<Card>>
    /** How many slots are occupied. */
    var cardCount: nat

    ghost predicate Valid()
      reads this, slots
    {
      && slots.Length == Capacity
      && cardCount <= Capacity
      && forall i :: 0 <= i < Capacity ==> (slots[i].Some? <==> i < cardCount)
    }

    /** `Board::new`: an empty board. */
    constructor ()
      ensures Valid() && fresh(slots)
      ensures cardCount == 0 && Cards() == []
    {
      slots := new Option<Card>[Capacity](_ => None);
      cardCount := 0;
      new;
      SomesOfFilledPrefix(slots[..], 0);
    }

    /** `Board::cards`: the cards added so far, in the order they were added. */
    function Cards(): (cs: seq<Card>)
      requires Valid()
      reads this, slots
      ensures |cs| == cardCount
      ensures forall i :: 0 <= i < cardCount ==> slots[i] == Some(cs[i])
    {
      SomesOfFilledPrefix(slots[..], cardCount);
      Somes(slots[..])
    }

    /** `Board::card_count`. */
    function CardCount(): (n: nat)
      requires Valid()
      reads this, slots
      ensures n == |Cards()| && n <= Capacity
    {
      cardCount
    }

    /** `Board::add_card`: fails on a full board, leaving it as it was;
        otherwise fills the next slot. */
    method AddCard(card: Card) returns (r: Result<()>)
      requires Valid()
      modifies this, slots
      ensures Valid()
      ensures old(cardCount) == Capacity ==>
        r == Err(BoardOverflow) && cardCount == old(cardCount) && slots[..] == old(slots[..])
      ensures old(cardCount) < Capacity ==>
        r == Ok(()) && cardCount == old(cardCount) + 1 && slots[..] == old(slots[..])[old(cardCount) := Some(card)]
      ensures Cards() == if old(cardCount) < Capacity then old(Cards()) + [card] else old(Cards())
    {
      if cardCount >= Capacity {
        return Err(BoardOverflow);
      }
      slots[cardCount] := Some(card);
      cardCount := cardCount + 1;
      r := Ok(());
    }

    /** `Board::best_poker_hand`: the running maximum over every five-card
        combination of the hole cards followed by the board. A combination
        always has five cards, so building its hand never fails; with fewer
        than five cards in all there is no combination and the source
        panics, hence the requirement of three board cards. */
    method BestPokerHand(playerHand: PlayerHand, pc: (PokerHand, PokerHand) -> Option<Ordering>)
      returns (r: Result<PokerHand>)
      requires Valid() && IsTotalOrder(pc)
      requires cardCount >= 3
      ensures r.Ok?
      ensures Some(r.value) == RunningBest(FiveCardHands(playerHand.Cards() + Cards()), pc)
    {
      var cards := playerHand.Cards() + Cards();
      var combos := Combinations(cards, 5);
      ghost var hands := FiveCardHands(cards);
      AllCombinationsHaveLength(cards, 5);
        var bestHand: Option<PokerHand> := None;
      for i := 0 to |combos|
        invariant bestHand == RunningBest(hands[..i], pc)
      {
        var hand :- assert NewPokerHand(combos[i]);
        assert hand == hands[i];
        assert hands[..i + 1][..i] == hands[..i];
        bestHand := match bestHand
          case None => Some(hand)
          case Some(m) => Some(Max(m, hand, pc));
      }
      CombinationsNonEmpty(cards, 5);
      assert hands[..|combos|] == hands;
      r := Ok(bestHand.value);
    }
  }
}
