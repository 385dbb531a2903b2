/** The betting table: a ring of seats, the seat whose turn it is, and the
    actions a seat can take. */
module Betting {

  /** A player's place at the table. */
  datatype Seat = Seat(stack: nat, bet: nat, isFolded: bool, isDead: bool) {

    /** A seat takes part in the betting while it has neither folded nor
        been eliminated. */
    predicate IsValid() {
      !isDead && !isFolded
    }
  }

  /** `Seat::new`: a seat with the given stack that has bet nothing and is
      still in play. */
  function NewSeat(stack: nat): (s: Seat)
    ensures s.stack == stack && s.bet == 0
    ensures s.IsValid()
  {
    Seat(stack, 0, false, false)
  }

  datatype Settings = Settings(nPlayers: nat, initialStack: nat)

  datatype Action = Fold | Raise(amount: nat) | Call | Check

  /** How many steps forward, around the ring of `n` seats, it takes to go
      from seat `from` to seat `to`: between 1 and `n`, and `n` for the full
      turn back to `from` itself. */
  function Offset(from: nat, to: nat, n: nat): (d: nat)
    requires from < n && to < n
    ensures 1 <= d <= n
    ensures d == n <==> to == from
    ensures to == if from + d < n then from + d else from + d - n
  {
    if to > from then to - from else to + n - from
  }

  /** The seat after seat `i` in a ring of `n` seats. */
  lemma NextSeat(i: nat, n: nat)
    requires i < n
    ensures (i + 1) % n == if i + 1 < n then i + 1 else 0
  {
  }

  class Game {
    const settings: Settings
    var roundCount: nat
    var seats: seq<Seat>
    var currentSeat: nat
    var pot: nat

    ghost predicate Valid()
      reads this
    {
      && |seats| == settings.nPlayers
      && (currentSeat < |seats| || (|seats| == 0 && currentSeat == 0))
    }

    /** `Game::new`: `n_players` identical fresh seats; seat 0 to act; an
        empty pot. */
    constructor (settings: Settings)
      ensures Valid()
      ensures this.settings == settings
      ensures |seats| == settings.nPlayers
      ensures forall j :: 0 <= j < |seats| ==> seats[j] == NewSeat(settings.initialStack)
      ensures currentSeat == 0 && pot == 0 && roundCount == 0
    {
      this.settings := settings;
      seats := seq(settings.nPlayers, _ => NewSeat(settings.initialStack));
      roundCount := 0;
      currentSeat := 0;
      pot := 0;
    }

    /** `Game::is_current_seat_valid`: the seat to act is still in play. */
    function IsCurrentSeatValid(): (r: bool)
      requires Valid() && currentSeat < |seats|
      reads this
      ensures r <==> seats[currentSeat].IsValid()
    {
      !(seats[currentSeat].isDead || seats[currentSeat].isFolded)
    }

    /** `Game::current_seat`. */
    function CurrentSeat(): (r: nat)
      requires Valid()
      reads this
      ensures |seats| > 0 ==> r < |seats|
    {
      currentSeat
    }

    /** `Game::advance_player`: steps around the ring to the next seat still
        in play. Every seat passed over is out of play; when no other seat is
        in play, the turn comes back to the same seat after a full round. The
        loop ends only if some seat is in play. */
    method AdvancePlayer()
      requires Valid() && settings.nPlayers > 0
      requires exists j :: 0 <= j < |seats| && seats[j].IsValid()
      modifies this`currentSeat
      ensures Valid()
      ensures seats[currentSeat].IsValid()
      ensures forall j :: 0 <= j < |seats| && Offset(old(currentSeat), j, |seats|) < Offset(old(currentSeat), currentSeat, |seats|)
                ==> !seats[j].IsValid()
    {
      var n := settings.nPlayers;
      ghost var start := currentSeat;
      ghost var steps: nat := 0;
      while true
        invariant Valid() && currentSeat < n
        invariant steps < n
        invariant currentSeat == if start + steps < n then start + steps else start + steps - n
        invariant forall j :: 0 <= j < n && Offset(start, j, n) <= steps ==> !seats[j].IsValid()
        decreases n - steps
      {
        NextSeat(currentSeat, n);
        currentSeat := (currentSeat + 1) % n;
        steps := steps + 1;
        assert Offset(start, currentSeat, n) == steps;
        if IsCurrentSeatValid() {
          break;
        }
      }
    }

    /** `Game::handle_action`: applies the action to the seat whose turn it
        is. Fold marks it folded, Raise adds to its bet, Check does nothing;
        the other seats, the stacks, the pot and the turn are left alone.
        Call is not written in the source. */
    method HandleAction(action: Action)
      requires Valid() && currentSeat < |seats|
      requires !action.Call?
      modifies this`seats
      ensures Valid()
      ensures action.Fold? ==>
        seats == old(seats)[currentSeat := old(seats)[currentSeat].(isFolded := true)]
      ensures action.Raise? ==>
        seats == old(seats)[currentSeat := old(seats)[currentSeat].(bet := old(seats)[currentSeat].bet + action.amount)]
      ensures action.Check? ==> seats == old(seats)
      ensures action.Fold? ==> !IsCurrentSeatValid()
    {
      match action {
        case Fold =>
          seats := seats[currentSeat := seats[currentSeat].(isFolded := true)];
        case Raise(amount) =>
          seats := seats[currentSeat := seats[currentSeat].(bet := seats[currentSeat].bet + amount)];
        case Check =>
      }
    }
  }
}
