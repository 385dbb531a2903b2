# pokr card and betting core in Dafny

This project models the parts of the pokr Texas Hold'em engine that are
actually written. Much of the engine is still unimplemented stubs.

- **Cards** (`card.dfy`, module `Cards`). A card is a suit and a value. Each
  value has a numeric rank from 2 to 14. Two cards are equal when both the
  suit and the value match. Cards are ordered by rank alone.
- **Hands** (`hand.dfy`, module `Hands`):
  - the two hole cards of a player;
  - five-card poker hands, which are built only from exactly five cards;
  - the hand categories;
  - the `indexed_bins` occupancy counter.
  The source does not implement the comparison of two poker hands. The model
  therefore takes it as a parameter `pc` and requires only that it is a total
  order (`IsTotalOrder`). `Ord::cmp`, `PartialEq` and `Ord::max` are built on
  top of `pc` in the same way as the source builds them.
- **Combinations** (`itertools.dfy`, module `Itertools`). This is the
  itertools `combinations` adaptor that the best-hand search uses. It yields
  all length-k subsequences, in lexicographic order of positions.
- **Board** (`board.dfy`, module `Boards`). The board is a class with five
  `Option` slots (an array) and an occupied count. Cards are appended until
  the board is full. The best-hand search is a loop that keeps a running
  maximum over every five-card combination of the hole cards followed by the
  board cards.
- **Deck** (`deck.dfy`, module `Decks`). The deck is a class holding a
  sequence of cards. The constructor builds the 52 cards in nested loops.
  Cards are drawn from the end, like a stack.
- **Betting table** (`game.dfy`, module `Betting`). A game is a class holding
  a ring of seats, the index of the seat whose turn it is, and a pot. Turns
  advance to the next seat that has neither folded nor died. Fold, Raise and
  Check change the current seat.
- `prelude.dfy` holds stand-ins for Rust's `Option` and `Ordering`.
  `card_error.dfy` holds the `CardError` enumeration and a `Result` type that
  supports `:-`, just as `?` propagates errors in Rust.

A few behaviours of the code are worth stating plainly:
- Check returns without recording anything about the seat.
- The board accepts any card count from 0 to 5.
- Calls, round completion, showdown and the hand categories other than
  HighCard are `todo!()` in the code and are not modelled.

## Model

| member | source | states |
|---|---|---|
| `Cards.NumberValue` | src/card/card.rs:25-41 | the rank of every value lies between 2 and 14 |
| `Cards.NumberValueInjective` | src/card/card.rs:26-40 | two values have the same rank exactly when they are the same value |
| `Cards.Discriminant` | src/card/card.rs:8-22 | every value sits at its declaration position in the list of all values (Ace first, Two last) |
| `Cards.DeclarationOrderIsDescendingRank` | src/card/card.rs:8-39 | the value list has 13 distinct entries, contains every value, and its ranks strictly decrease in declaration order |
| `Cards.DiscriminantReversesRank` | src/card/card.rs:8-39 | a value declared earlier has a higher rank, and conversely; rank plus declaration position is 14 |
| `Cards.Eq` | src/card/card.rs:44-48 | card `==` holds exactly when suit and value both agree, i.e. it is structural equality |
| `Cards.PartialCmp` | src/card/card.rs:50-56 | card comparison is always `Some`; it says Less, Greater or Equal according to the ranks, it is Equal exactly when the values agree, and the suit plays no part |
| `Cards.PartialCmpAntisymmetric` | src/card/card.rs:50-56 | swapping the two cards reverses the ordering |
| `Cards.CardOrderIsTotalPreorder` | src/card/card.rs:50-56 | card `<=` is reflexive, transitive and total |
| `Cards.EqualRankIsNotEquality` | src/card/card.rs:44-56 | cards with the same value and different suits compare Equal and yet are not `==` |
| `Hands.PlayerHand.Cards` | src/card/hand.rs:9-11 | a player hand yields exactly its two stored cards, in order |
| `Hands.NewPokerHand` | src/card/hand.rs:20-26 | building a hand succeeds exactly when the input has five cards, and it keeps them in input order; any other count gives `InvalidPokerHandCardCount` |
| `Hands.ContainsHand` | src/card/hand.rs:29-41 | every hand contains HighCard (the only category the source implements) |
| `Hands.Cmp` | src/card/hand.rs:44-48 | `cmp` is the unwrapped partial comparison, defined wherever that comparison is `Some` |
| `Hands.HandEq` | src/card/hand.rs:68-72 | two hands are `==` exactly when the comparison says Equal; otherwise it says Less or Greater |
| `Hands.HandEqIsEquivalence` | src/card/hand.rs:68-72 | under a total order, hand `==` is reflexive, symmetric and transitive |
| `Hands.Max` | src/card/board.rs:30 | `Ord::max` returns one of its two arguments, which is at least as large as both; on a tie it returns the second |
| `Hands.IndexedBins` | src/card/hand.rs:81-89 | bin k holds the number of items whose index is k; the bins sum to the number of items; an empty input gives all zeros; every index must be below the number of bins |
| `Hands.TallySum` | src/card/hand.rs:81-89 | when every index is in range, the per-index counts add up to the number of items |
| `Itertools.CombinationsAreSubsequences` | src/card/board.rs:21-26 | every enumerated k-combination (k = 5 here) has k elements, taken from the input in order |
| `Itertools.SubsequencesAreCombinations` | src/card/board.rs:21-26 | every in-order choice of k (= 5) of the input cards is enumerated |
| `Itertools.AllCombinationsHaveLength` | src/card/board.rs:26-29 | every enumerated combination has exactly five cards, so the `PokerHand::new` error path is never taken |
| `Itertools.Combinations` | src/card/board.rs:26 | `combinations(k)` of n inputs yields exactly Binomial(n, k) combinations, enumerated in lexicographic order of positions |
| `Itertools.CombinationsNonEmpty` | src/card/board.rs:26-33 | there is some combination exactly when at least five cards are available; with fewer the search sees nothing and the final unwrap fails |
| `Boards.FiveCardHands` | src/card/board.rs:21-27 | there is one hand per combination, in enumeration order, holding that combination's cards |
| `Boards.RunningBest` | src/card/board.rs:19-31 | the search's accumulator is empty exactly when no hand has been seen |
| `Boards.BestIndex` | src/card/board.rs:30 | the accumulator always holds one of the hands seen, at a known position |
| `Boards.RunningBestIsGreatest` | src/card/board.rs:21-31 | no hand seen compares greater than the accumulated best |
| `Boards.RunningBestIsLast` | src/card/board.rs:30 | every hand after the kept one is strictly smaller, so on ties the later hand wins |
| `Boards.BestHandIsGreatest` | src/card/board.rs:18-34 | with at least five cards, the best hand is five of the available cards in order, and it is at least as large as every other such choice |
| `Boards.Board.constructor` | src/card/board.rs:11-16 | a new board has count 0, all slots empty, and yields no cards |
| `Boards.Board.Cards` | src/card/board.rs:49-51 | the board yields exactly the cards in the occupied slots, in slot order; there are `card_count` of them |
| `Boards.Board.CardCount` | src/card/board.rs:45-47 | the count equals the number of cards yielded and never exceeds 5 |
| `Boards.Board.AddCard` | src/card/board.rs:36-43 | on a full board: `BoardOverflow`, board unchanged; otherwise the card goes in slot `card_count`, the count grows by 1, other slots stay as they were, and the yielded cards gain the new card at the end; the slot invariant is kept |
| `Boards.Board.BestPokerHand` | src/card/board.rs:18-34 | never fails when five cards are available, and returns the running maximum over all combinations of the hole cards followed by the board cards |
| `Decks.Deck.constructor` | src/card/deck.rs:25-49 | the new deck is, suit by suit (Spades, Hearts, Diamonds, Clubs), one card of each value from Ace to Two |
| `Decks.FullDeckIsEveryCardOnce` | src/card/deck.rs:25-49 | a new deck has 52 cards, and every (suit, value) pair occurs in it exactly once |
| `Decks.Deck.DrawCard` | src/card/deck.rs:9-11 | an empty deck gives `EmptyDeck` and stays empty; otherwise the last card is returned and removed, and the rest keep their order |
| `Decks.Deck.DrawHand` | src/card/deck.rs:13-19 | with at least two cards: the hand is [last, second-to-last] and the deck shrinks by two; with one card: `EmptyDeck` after that card was removed; with none: `EmptyDeck` |
| `Betting.NewSeat` | src/game.rs:29-36 | a new seat has the given stack, no bet, and is in play |
| `Betting.Game.constructor` | src/game.rs:46-54 | `n_players` seats, all equal to a new seat with the initial stack; seat 0 to act; pot and round count 0 |
| `Betting.Game.IsCurrentSeatValid` | src/game.rs:63-65 | the current seat is valid exactly when it is neither dead nor folded |
| `Betting.Offset` | src/game.rs:69 | the cyclic distance from one seat to another is between 1 and n, and it is n only for the seat itself |
| `Betting.Game.AdvancePlayer` | src/game.rs:67-74 | if some seat is in play, the turn moves to the first seat in play strictly after the old one in cyclic order, and every seat skipped is out of play; when no other seat is in play it comes back to the old seat; seats are not modified |
| `Betting.Game.HandleAction` | src/game.rs:82-90 | Fold sets only the current seat's folded flag, and that seat is then out of play; Raise adds the amount to the current seat's bet only; Check changes nothing; the turn, the pot and the other seats are untouched |
| `Betting.Game.CurrentSeat` | src/game.rs:92-94 | the current seat index is a seat of the table whenever the table has seats |

## Left out

- `Deck::shuffle` (src/card/deck.rs:21-23) calls a random-number library. It is not modelled.
- `Hands.ContainsHand` requires HighCard. Every other category arm (src/card/hand.rs:31-38) is `todo!()` and panics. No category detection is invented.
- `PartialOrd for PokerHand` (src/card/hand.rs:50-54) is `todo!()`. The hand order is a parameter assumed to be a total order.
- The `Indexed` trait (src/card/hand.rs:76-79) has no implementations. `Hands.IndexedBins` takes the index function as a parameter.
- `Game::play_action` and `Game::state_logic` (src/game.rs:56-61, 76-80) always reach `todo!()`. They are not modelled; `AdvancePlayer` and `HandleAction` are modelled separately.
- `Boards.Board.BestPokerHand` requires at least three board cards, so at least five cards in all. With fewer there is no combination, and the source panics on `best_hand.unwrap()` (src/card/board.rs:33); that case is captured by `Itertools.CombinationsNonEmpty` and `Boards.RunningBest` returning `None`.
- `Betting.Game.HandleAction` requires an action other than Call, because `Action::Call` (src/game.rs:87) is `todo!()`.
- `Betting.Game.HandleAction`: bets are unbounded integers. The `usize` overflow of `bet += amount` is not modelled.
- `Betting.Game.AdvancePlayer` requires at least one seat (the source takes the index modulo zero otherwise) and some seat in play (the source loops forever otherwise).
- `Game::over` (always false), `get_observable_state` and `ObservableState` (src/game.rs:96-111) carry no content.
- The Python binding (src/pygame.rs, src/lib.rs), the driver (src/main.rs, test.py) and the constant-Check player (src/player.rs) are not part of this model.
- src/deck.rs is an older draft that does not compile, replaced by src/card/deck.rs. It is not part of this model.
- The error message strings of `CardError` and `GameError` are not modelled.
- Iterators (`PlayerHand::cards`, `Board::cards`, the `combinations` adaptor) are modelled as the sequences they yield.
- The board's `cards` field is called `slots` in the model, because a Dafny class cannot have a field and a function with the same name.
