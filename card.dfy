/** Playing cards: suits, values, the numeric rank of a value, card equality
    (suit and value) and card ordering (value only). */
module Cards {
  import opened Prelude

  datatype Suit = Spades | Diamonds | Clubs | Hearts

  /** Values in their declaration order, highest first. */
  datatype Value =
    | Ace | King | Queen | Jack | Ten | Nine | Eight
    | Seven | Six | Five | Four | Three | Two

  datatype Card = Card(suit: Suit, value: Value)

  /** Every value, in the order the enumeration declares them. */
  const AllValues: seq<Value> :=
    [Ace, King, Queen, Jack, Ten, Nine, Eight, Seven, Six, Five, Four, Three, Two]

  /** The numeric rank of a value: Two is 2, ..., King is 13, Ace is 14. */
  function NumberValue(v: Value): (n: nat)
    ensures 2 <= n <= 14
  {
    match v
    case Ace => 14
    case King => 13
    case Queen => 12
    case Jack => 11
    case Ten => 10
    case Nine => 9
    case Eight => 8
    case Seven => 7
    case Six => 6
    case Five => 5
    case Four => 4
    case Three => 3
    case Two => 2
  }

  /** Distinct values have distinct ranks. */
  lemma NumberValueInjective(v: Value, w: Value)
    ensures NumberValue(v) == NumberValue(w) <==> v == w
  {
  }

  /** The position of a value in the declaration (the enumeration's
      discriminant): Ace is 0, ..., Two is 12. */
  function Discriminant(v: Value): (i: nat)
    ensures i < |AllValues| && AllValues[i] == v
  {
    match v
    case Ace => 0
    case King => 1
    case Queen => 2
    case Jack => 3
    case Ten => 4
    case Nine => 5
    case Eight => 6
    case Seven => 7
    case Six => 8
    case Five => 9
    case Four => 10
    case Three => 11
    case Two => 12
  }

  /** `AllValues` lists all 13 values, each once, and declaration order is
      strictly decreasing rank. */
  lemma DeclarationOrderIsDescendingRank()
    ensures |AllValues| == 13
    ensures forall v: Value :: v in AllValues
    ensures forall i, j :: 0 <= i < j < |AllValues| ==> AllValues[i] != AllValues[j]
    ensures forall i, j :: 0 <= i < j < |AllValues| ==> NumberValue(AllValues[i]) > NumberValue(AllValues[j])
  {
    forall v: Value ensures v in AllValues {
      assert AllValues[Discriminant(v)] == v;
    }
  }

  /** An earlier declaration means a higher rank, and conversely. */
  lemma DiscriminantReversesRank(v: Value, w: Value)
    ensures Discriminant(v) < Discriminant(w) <==> NumberValue(v) > NumberValue(w)
    ensures NumberValue(v) + Discriminant(v) == 14
  {
  }

  /** Card equality (`PartialEq for Card`): both the suit and the value agree.
      It coincides with structural equality of the pair. */
  function Eq(a: Card, b: Card): (r: bool)
    ensures r <==> a == b
  {
    a.suit == b.suit && a.value == b.value
  }

  /** Card comparison (`PartialOrd for Card`): the comparison of the two ranks.
      It is always defined, and the suit plays no part in it. */
  function PartialCmp(a: Card, b: Card): (o: Option<Ordering>)
    ensures o.Some?
    ensures o.value == Less <==> NumberValue(a.value) < NumberValue(b.value)
    ensures o.value == Greater <==> NumberValue(a.value) > NumberValue(b.value)
    ensures o.value == Equal <==> a.value == b.value
  {
    NumberValueInjective(a.value, b.value);
    Some(CompareNat(NumberValue(a.value), NumberValue(b.value)))
  }

  /** `a <= b` for cards. */
  predicate Le(a: Card, b: Card) {
    PartialCmp(a, b).value != Greater
  }

  /** Comparing in the other direction reverses the ordering. */
  lemma PartialCmpAntisymmetric(a: Card, b: Card)
    ensures PartialCmp(b, a).value == PartialCmp(a, b).value.Reverse()
  {
  }

  /** Card ordering is a total preorder: reflexive, transitive and total. */
  lemma CardOrderIsTotalPreorder()
    ensures forall a: Card :: Le(a, a)
    ensures forall a: Card, b: Card, c: Card :: Le(a, b) && Le(b, c) ==> Le(a, c)
    ensures forall a: Card, b: Card :: Le(a, b) || Le(b, a)
  {
  }

  /** The preorder is not an order: two cards of the same value and different
      suits compare `Equal` although they are not `==`. */
  lemma EqualRankIsNotEquality(a: Card, b: Card)
    requires a.value == b.value && a.suit != b.suit
    ensures PartialCmp(a, b) == Some(Equal)
    ensures !Eq(a, b)
  {
  }
}
