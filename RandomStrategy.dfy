/** `ComputerStrategyRandom.java`: a uniformly chosen entry of the move list. */
module RandomStrategy {
  import opened Options
  import opened Games
  import opened Moves

  /**
   * `calculateMove`. The draw `random.nextInt(size)` is the parameter `choice` taken modulo
   * the list size, so every index of the list is the outcome of some choice.
   */
  method CalculateMove(state: GameState, choice: nat) returns (move: Option<ComputerMove>)
    requires state.Valid()
    ensures var moves := Enumerate(state.Value(), TwentyWay);
      && (move.None? <==> moves == [])
      && (move.Some? ==> move.value == moves[choice % |moves|])
    ensures move.None? <==> !AnyLegalMove(state.Value())
    ensures move.Some? && state.status == Playing ==>
      MoveAccepted(state.Value(), move.value.piece, move.value.row, move.value.col)
  {
    var possibleMoves := FindAllPossibleMoves(state, TwentyWay);
    EnumerateEmptyIffStuck(state.Value(), TwentyWay);
    if |possibleMoves| == 0 {
      return None;
    }
    var m := possibleMoves[choice % |possibleMoves|];
    EnumeratedMoveLegal(state.Value(), TwentyWay, m);
    return Some(m);
  }
}
