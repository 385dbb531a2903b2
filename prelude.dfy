/** Stand-ins for the two Rust standard-library types the card core uses:
    `Option` and `std::cmp::Ordering`. */
module Prelude {

  datatype Option<+T> = None | Some(value: T)

  /** The result of a three-way comparison. */
  datatype Ordering = Less | Equal | Greater {

    /** The ordering seen from the other side (`Ordering::reverse`). */
    function Reverse(): (r: Ordering)
      ensures r == Less <==> this == Greater
      ensures r == Greater <==> this == Less
      ensures r == Equal <==> this == Equal
    {
      match this
      case Less => Greater
      case Equal => Equal
      case Greater => Less
    }
  }

  /** Three-way comparison of two machine integers (`usize::partial_cmp`, unwrapped). */
  function CompareNat(x: nat, y: nat): (r: Ordering)
    ensures r == Less <==> x < y
    ensures r == Equal <==> x == y
    ensures r == Greater <==> x > y
  {
    if x < y then Less else if x == y then Equal else Greater
  }
}
