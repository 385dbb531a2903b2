/** The deck: the 52 cards built suit by suit, drawn from the end like a
    stack. */
module Decks {
  import opened CardErrors
  import opened Cards
  import opened Hands

  /** The order in which `Deck::new` walks the suits. */
  const DeckSuits: seq<Suit> := [Spades, Hearts, Diamonds, Clubs]

  /** The cards of one suit with the given values, in the order of the values. */
  function SuitRun(suit: Suit, values: seq<Value>): (run: seq<Card>)
    ensures |run| == |values|
  {
    if values == [] then []
    else SuitRun(suit, values[..|values| - 1]) + [Card(suit, values[|values| - 1])]
  }

  /** The cards of each suit of `suits` with all of `values`, suit after suit. */
  function Runs(suits: seq<Suit>, values: seq<Value>): seq<Card> {
    if suits == [] then []
    else Runs(suits[..|suits| - 1], values) + SuitRun(suits[|suits| - 1], values)
  }

  /** The contents of a new deck, bottom first. */
  function FullDeck(): seq<Card> {
    Runs(DeckSuits, AllValues)
  }

  lemma {:induction false} RunsLength(suits: seq<Suit>, values: seq<Value>)
    ensures |Runs(suits, values)| == |suits| * |values|
  {
    if suits != [] {
      RunsLength(suits[..|suits| - 1], values);
      assert (|suits| - 1) * |values| + |values| == |suits| * |values|;
    }
  }

  /** A run holds a card once per occurrence of its value, if the suit matches. */
  lemma {:induction false} SuitRunCount(suit: Suit, values: seq<Value>, c: Card)
    ensures multiset(SuitRun(suit, values))[c] == if c.suit == suit then multiset(values)[c.value] else 0
  {
    if values != [] {
      var init := values[..|values| - 1];
      SuitRunCount(suit, init, c);
      assert values == init + [values[|values| - 1]];
    }
  }

  /** In a sequence without repetitions, each member occurs once. */
  lemma {:induction false} DistinctOnce<T>(s: seq<T>, x: T)
    requires forall i, j :: 0 <= i < j < |s| ==> s[i] != s[j]
    requires x in s
    ensures multiset(s)[x] == 1
  {
    var init := s[..|s| - 1];
    var last := s[|s| - 1];
    assert s == init + [last];
    if x == last {
      assert x !in init;
    } else {
      DistinctOnce(init, x);
    }
  }

  lemma MultisetOfSnoc<T>(s: seq<T>)
    requires s != []
    ensures multiset(s) == multiset(s[..|s| - 1]) + multiset{s[|s| - 1]}
  {
    assert s == s[..|s| - 1] + [s[|s| - 1]];
  }

  /** When every value occurs once, the runs hold a card once per
      occurrence of its suit. */
  lemma {:induction false} RunsCount(suits: seq<Suit>, values: seq<Value>, c: Card)
    requires multiset(values)[c.value] == 1
    ensures multiset(Runs(suits, values))[c] == multiset(suits)[c.suit]
  {
    if suits != [] {
      var init := suits[..|suits| - 1];
      var last := suits[|suits| - 1];
      var earlier := Runs(init, values);
      var run := SuitRun(last, values);
      assert Runs(suits, values) == earlier + run;
      RunsCount(init, values, c);
      SuitRunCount(last, values, c);
      MultisetOfSnoc(suits);
      assert multiset(earlier + run) == multiset(earlier) + multiset(run);
    }
  }

  /** Every suit once and every value once give every card once. */
  lemma EveryPairOnce(suits: seq<Suit>, values: seq<Value>)
    requires forall s: Suit :: multiset(suits)[s] == 1
    requires forall v: Value :: multiset(values)[v] == 1
    ensures forall c: Card :: multiset(Runs(suits, values))[c] == 1
  {
    forall c: Card ensures multiset(Runs(suits, values))[c] == 1 {
      RunsCount(suits, values, c);
    }
  }

  /** A new deck has 52 cards, and every card occurs in it exactly once. */
  lemma FullDeckIsEveryCardOnce()
    ensures |FullDeck()| == 52
    ensures forall c: Card :: multiset(FullDeck())[c] == 1
  {
    RunsLength(DeckSuits, AllValues);
    DeclarationOrderIsDescendingRank();
    forall v: Value ensures multiset(AllValues)[v] == 1 {
      DistinctOnce(AllValues, v);
    }
    forall s: Suit ensures multiset(DeckSuits)[s] == 1 {
      match s {
        case Spades => assert DeckSuits[0] == s;
        case Hearts => assert DeckSuits[1] == s;
        case Diamonds => assert DeckSuits[2] == s;
        case Clubs => assert DeckSuits[3] == s;
      }
      DistinctOnce(DeckSuits, s);
    }
    EveryPairOnce(DeckSuits, AllValues);
  }

  class Deck {
    /** The cards, bottom first; the top of the deck is the last card. */
    var deck: seq<Card>

    /** `Deck::new`: for each suit in turn, one card of every value. */
    constructor ()
      ensures deck == FullDeck()
    {
      var cards: seq<Card> := [];
      for si := 0 to |DeckSuits|
        invariant cards == Runs(DeckSuits[..si], AllValues)
      {
        var suit := DeckSuits[si];
        for vi := 0 to |AllValues|
          invariant cards == Runs(DeckSuits[..si], AllValues) + SuitRun(suit, AllValues[..vi])
        {
          assert AllValues[..vi + 1][..vi] == AllValues[..vi];
          cards := cards + [Card(suit, AllValues[vi])];
        }
        assert AllValues[..|AllValues|] == AllValues;
        assert DeckSuits[..si + 1][..si] == DeckSuits[..si];
      }
      assert DeckSuits[..|DeckSuits|] == DeckSuits;
      deck := cards;
    }

    /** `Deck::draw_card`: pops the top card, or fails on an empty deck. */
    method DrawCard() returns (r: Result<Card>)
      modifies this
      ensures old(deck) == [] ==> r == Err(EmptyDeck) && deck == []
      ensures old(deck) != [] ==>
        r == Ok(old(deck)[|old(deck)| - 1]) && deck == old(deck)[..|old(deck)| - 1]
    {
      if deck == [] {
        return Err(EmptyDeck);
      }
      var top := deck[|deck| - 1];
      deck := deck[..|deck| - 1];
      r := Ok(top);
    }

    /** `Deck::draw_hand`: two pops. The first card drawn comes first in the
        hand. On a one-card deck the first pop has already removed that card
        when the second one fails. */
    method DrawHand() returns (r: Result<PlayerHand>)
      modifies this
      ensures |old(deck)| >= 2 ==>
        r == Ok(PlayerHand([old(deck)[|old(deck)| - 1], old(deck)[|old(deck)| - 2]]))
        && deck == old(deck)[..|old(deck)| - 2]
      ensures |old(deck)| < 2 ==> r == Err(EmptyDeck) && deck == []
    {
      var card1 :- DrawCard();
      var card2 :- DrawCard();
      r := Ok(PlayerHand([card1, card2]));
    }
  }
}
