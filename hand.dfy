/** Hands: the two private cards of a player, five-card poker hands, the
    hand categories, the hand order (left abstract: the comparison of two
    poker hands is a parameter) and the occupancy counter used to classify
    hands. */
module Hands {
  import opened Prelude
  import opened CardErrors
  import opened Cards

  /** Exactly two cards. */
  type TwoCards = s: seq<Card> | |s| == 2
    witness [Card(Spades, Ace), Card(Spades, King)]

  /** Exactly five cards. */
  type FiveCards = s: seq<Card> | |s| == 5
    witness [Card(Spades, Ace), Card(Spades, King), Card(Spades, Queen), Card(Spades, Jack), Card(Spades, Ten)]

  /** The private (hole) cards of a player. */
  datatype PlayerHand = PlayerHand(cards: TwoCards) {

    /** The stored cards, in order. */
    function Cards(): (r: seq<Card>)
      ensures |r| == 2 && r == [cards[0], cards[1]]
    {
      cards
    }
  }

  datatype PokerHand = PokerHand(cards: FiveCards)

  /** The hand categories, strongest first. */
  datatype HandType =
    | StraightFlush
    | FourOfAKind
    | FullHouse
    | Flush
    | Straight
    | ThreeOfAKind
    | DoublePair
    | Pair
    | HighCard

  /** `PokerHand::new`: collects the input into a hand when it yields exactly
      five cards, keeping their order, and fails otherwise. */
  function NewPokerHand(cards: seq<Card>): (r: Result<PokerHand>)
    ensures r.Ok? <==> |cards| == 5
    ensures r.Ok? ==> r.value.cards == cards
    ensures r.Err? ==> r.error == InvalidPokerHandCardCount
  {
    if |cards| == 5 then Ok(PokerHand(cards)) else Err(InvalidPokerHandCardCount)
  }

  /** `PokerHand::contains_hand`. Only the HighCard test is written; every
      other category is an unimplemented arm, so callers must ask for
      HighCard. Every hand contains a high card. */
  function ContainsHand(hand: PokerHand, handType: HandType): (r: bool)
    requires handType == HighCard
    ensures r
  {
    match handType
    case HighCard => true
  }

  // ---------------------------------------------------------------------
  // The hand order. `PartialOrd for PokerHand` is not written in the
  // source, so the comparison is a parameter `pc`; `Ord::cmp`, `PartialEq`
  // and `Ord::max` are wired on top of it exactly as the source does.
  // ---------------------------------------------------------------------

  /** What `Ord` demands of a comparison: defined on every pair, reversed
      when the arguments are swapped, and transitive. */
  ghost predicate IsTotalOrder(pc: (PokerHand, PokerHand) -> Option<Ordering>) {
    && (forall a, b :: pc(a, b).Some?)
    && (forall a, b :: pc(b, a).value == pc(a, b).value.Reverse())
    && (forall a, b, c :: AtMost(a, b, pc) && AtMost(b, c, pc) ==> AtMost(a, c, pc))
  }

  /** `a <= b` under the comparison `pc`. */
  ghost predicate AtMost(a: PokerHand, b: PokerHand, pc: (PokerHand, PokerHand) -> Option<Ordering>) {
    pc(a, b).Some? && pc(a, b).value != Greater
  }

  lemma CmpReverse(a: PokerHand, b: PokerHand, pc: (PokerHand, PokerHand) -> Option<Ordering>)
    requires IsTotalOrder(pc)
    ensures Cmp(b, a, pc) == Cmp(a, b, pc).Reverse()
  {
  }

  lemma CmpTransitive(a: PokerHand, b: PokerHand, c: PokerHand, pc: (PokerHand, PokerHand) -> Option<Ordering>)
    requires IsTotalOrder(pc)
    requires Cmp(a, b, pc) != Greater && Cmp(b, c, pc) != Greater
    ensures Cmp(a, c, pc) != Greater
  {
    assert AtMost(a, b, pc) && AtMost(b, c, pc);
  }

  /** `Ord::cmp`: unwraps the partial comparison (panicking when it is undefined). */
  function Cmp(a: PokerHand, b: PokerHand, pc: (PokerHand, PokerHand) -> Option<Ordering>): (o: Ordering)
    requires pc(a, b).Some?
    ensures pc(a, b) == Some(o)
  {
    pc(a, b).value
  }

  /** `PartialEq for PokerHand`: two hands are equal when the comparison says
      `Equal`, so equality is consistent with the order. */
  function HandEq(a: PokerHand, b: PokerHand, pc: (PokerHand, PokerHand) -> Option<Ordering>): (r: bool)
    requires pc(a, b).Some?
    ensures r <==> pc(a, b) == Some(Equal)
    ensures !r <==> pc(a, b) == Some(Less) || pc(a, b) == Some(Greater)
  {
    pc(a, b).value == Equal
  }

  /** Under a total order, hand equality is an equivalence relation. */
  lemma HandEqIsEquivalence(pc: (PokerHand, PokerHand) -> Option<Ordering>)
    requires IsTotalOrder(pc)
    ensures forall a :: HandEq(a, a, pc)
    ensures forall a, b :: HandEq(a, b, pc) ==> HandEq(b, a, pc)
    ensures forall a, b, c :: HandEq(a, b, pc) && HandEq(b, c, pc) ==> HandEq(a, c, pc)
  {
    forall a ensures HandEq(a, a, pc) {
      assert pc(a, a).value == pc(a, a).value.Reverse();
    }
    forall a, b, c | HandEq(a, b, pc) && HandEq(b, c, pc) ensures HandEq(a, c, pc) {
      CmpTransitive(a, b, c, pc);
      CmpReverse(a, b, pc);
      CmpReverse(b, c, pc);
      CmpTransitive(c, b, a, pc);
      CmpReverse(a, c, pc);
    }
  }

  /** `Ord::max`: the larger of the two hands, and the second one on a tie. */
  function Max(a: PokerHand, b: PokerHand, pc: (PokerHand, PokerHand) -> Option<Ordering>): (m: PokerHand)
    requires IsTotalOrder(pc)
    ensures m == a || m == b
    ensures Cmp(m, a, pc) != Less && Cmp(m, b, pc) != Less
    ensures Cmp(a, b, pc) != Greater ==> m == b
  {
    assert pc(b, a).value == pc(a, b).value.Reverse();
    assert pc(a, a).value == pc(a, a).value.Reverse();
    assert pc(b, b).value == pc(b, b).value.Reverse();
    if Cmp(a, b, pc) == Greater then a else b
  }

  // ---------------------------------------------------------------------
  // Occupancy counting (`indexed_bins`).
  // ---------------------------------------------------------------------

  /** The number of items whose index is `k`. */
  function Occurrences<T>(items: seq<T>, index: T -> nat, k: nat): nat {
    if items == [] then 0
    else Occurrences(items[..|items| - 1], index, k) + (if index(items[|items| - 1]) == k then 1 else 0)
  }

  /** The bins a count of `items` into `n` slots should produce. */
  function Tally<T>(items: seq<T>, index: T -> nat, n: nat): (bins: seq<nat>)
    ensures |bins| == n
  {
    seq(n, k requires 0 <= k < n => Occurrences(items, index, k))
  }

  function Sum(s: seq<nat>): nat {
    if s == [] then 0 else s[0] + Sum(s[1..])
  }

  /** `indexed_bins`: bin `k` ends up holding the number of items whose
      index is `k`. Every index must be below the number of bins (the source
      panics on an index out of bounds). */
  method IndexedBins<T>(items: seq<T>, index: T -> nat, n: nat) returns (bins: seq<nat>)
    requires forall i :: 0 <= i < |items| ==> index(items[i]) < n
    ensures |bins| == n
    ensures forall k :: 0 <= k < n ==> bins[k] == Occurrences(items, index, k)
    ensures Sum(bins) == |items|
    ensures items == [] ==> forall k :: 0 <= k < n ==> bins[k] == 0
  {
    var counts := new nat[n](_ => 0);
    for i := 0 to |items|
      invariant counts[..] == Tally(items[..i], index, n)
    {
      var k := index(items[i]);
      assert items[..i + 1][..i] == items[..i];
      counts[k] := counts[k] + 1;
    }
    assert items[..|items|] == items;
    bins := counts[..];
    TallySum(items, index, n);
  }

  /** Incrementing one entry of a sequence increases its sum by one. */
  lemma {:induction false} SumIncrement(s: seq<nat>, j: nat)
    requires j < |s|
    ensures Sum(s[j := s[j] + 1]) == Sum(s) + 1
  {
    if j > 0 {
      SumIncrement(s[1..], j - 1);
      assert s[j := s[j] + 1][1..] == s[1..][j - 1 := s[j] + 1];
    } else {
      assert s[j := s[j] + 1][1..] == s[1..];
    }
  }

  /** When every index is in range, the bins add up to the number of items. */
  lemma {:induction false} TallySum<T>(items: seq<T>, index: T -> nat, n: nat)
    requires forall i :: 0 <= i < |items| ==> index(items[i]) < n
    ensures Sum(Tally(items, index, n)) == |items|
  {
    if items == [] {
      ZeroSum(Tally(items, index, n));
    } else {
      var init := items[..|items| - 1];
      var k := index(items[|items| - 1]);
      TallySum(init, index, n);
      assert Tally(items, index, n) == Tally(init, index, n)[k := Tally(init, index, n)[k] + 1];
      SumIncrement(Tally(init, index, n), k);
    }
  }

  lemma {:induction false} ZeroSum(s: seq<nat>)
    requires forall i :: 0 <= i < |s| ==> s[i] == 0
    ensures Sum(s) == 0
  {
    if s != [] {
      ZeroSum(s[1..]);
    }
  }
}
