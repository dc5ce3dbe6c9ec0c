/** `ComputerStrategyMinMax.java`: the alpha-beta search with the mobility evaluation. */
module MinMax {
  import opened Options
  import opened Ints
  import opened Games
  import opened Moves
  import opened Search

  class MinMaxStrategy {
    /** The search depth, 1 to 5. */
    const maxDepth: nat
    /** The nodes searched by the last `calculateMove`. */
    var nodesEvaluated: nat

    ghost predicate Valid()
    {
      1 <= maxDepth <= 5
    }

    /** `new ComputerStrategyMinMax(maxDepth)`: the depth is clamped to 1..5. */
    constructor (depth: int)
      ensures Valid()
      ensures maxDepth == Clamp(depth, 1, 5) && nodesEvaluated == 0
    {
      maxDepth := Clamp(depth, 1, 5);
      nodesEvaluated := 0;
    }

    /** `new ComputerStrategyMinMax()`: depth 3. */
    constructor Default()
      ensures Valid()
      ensures maxDepth == 3 && nodesEvaluated == 0
    {
      maxDepth := 3;
      nodesEvaluated := 0;
    }

    /** `calculateMove`: the root search with the mobility evaluation, recording the node count. */
    method CalculateMove(state: GameState) returns (move: Option<ComputerMove>)
      requires Valid() && state.Valid()
      modifies this
      ensures RootChoice(state.Value(), maxDepth, Mobility, move, nodesEvaluated)
      ensures move.Some? && state.status == Playing ==>
        MoveAccepted(state.Value(), move.value.piece, move.value.row, move.value.col)
    {
      move, nodesEvaluated := SearchRoot(state, maxDepth, Mobility);
    }
  }
}
