/** The error enumeration shared by the board, the hands and the deck, and a
    `Result` over it that supports `:-` the way Rust's `?` propagates errors. */
module CardErrors {

  datatype CardError =
    | BoardOverflow
    | InvalidPokerHandCardCount
    | EmptyDeck

  datatype Result<+T> = Ok(value: T) | Err(error: CardError) {

    predicate IsFailure() {
      Err?
    }

    function PropagateFailure<U>(): Result<U>
      requires Err?
    {
      Err(error)
    }

    function Extract(): T
      requires Ok?
    {
      value
    }
  }
}
