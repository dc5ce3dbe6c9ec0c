/** `ComputerStrategyMinMaxDiffusion.java`: the alpha-beta search with the diffusion evaluation. */
module MinMaxDiffusion {
  import opened Options
  import opened Ints
  import opened Games
  import opened Moves
  import opened Search

  class MinMaxDiffusionStrategy {
    /** The search depth, 1 to 5. */
    const maxDepth: nat
    /** The diffusion rounds of each leaf evaluation, 1 to 3. */
    const diffusionIterations: nat
    /** The nodes searched by the last `calculateMove`. */
    var nodesEvaluated: nat

    ghost predicate Valid()
    {
      1 <= maxDepth <= 5 && 1 <= diffusionIterations <= 3
    }

    /** `new ComputerStrategyMinMaxDiffusion(maxDepth, diffusionIterations)`: both clamped. */
    constructor (depth: int, iterations: int)
      ensures Valid()
      ensures maxDepth == Clamp(depth, 1, 5) && diffusionIterations == Clamp(iterations, 1, 3)
      ensures nodesEvaluated == 0
    {
      maxDepth := Clamp(depth, 1, 5);
      diffusionIterations := Clamp(iterations, 1, 3);
      nodesEvaluated := 0;
    }

    /** `new ComputerStrategyMinMaxDiffusion()`: depth 3, two iterations. */
    constructor Default()
      ensures Valid()
      ensures maxDepth == 3 && diffusionIterations == 2 && nodesEvaluated == 0
    {
      maxDepth := 3;
      diffusionIterations := 2;
      nodesEvaluated := 0;
    }

    /** `calculateMove`: the root search with the diffusion evaluation, recording the node count. */
    method CalculateMove(state: GameState) returns (move: Option<ComputerMove>)
      requires Valid() && state.Valid()
      modifies this
      ensures RootChoice(state.Value(), maxDepth, DiffusionTotal(diffusionIterations), move, nodesEvaluated)
      ensures move.Some? && state.status == Playing ==>
        MoveAccepted(state.Value(), move.value.piece, move.value.row, move.value.col)
    {
      move, nodesEvaluated := SearchRoot(state, maxDepth, DiffusionTotal(diffusionIterations));
    }
  }
}
