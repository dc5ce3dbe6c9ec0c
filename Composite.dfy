/**
 * `ComputerStrategyComposite.java`: plays an early-game strategy until its threshold
 * calculator says switch, then the endgame strategy for the rest of the game.
 */
module Composite {
  import opened Options
  import opened Boards
  import opened Games
  import opened Thresholds

  /**
   * A component strategy, named by its class and constructor arguments.  The composite only
   * chooses between its two components; the chosen one computes the move.
   */
  datatype StrategyChoice =
    | RandomChoice
    | OpenSpaceChoice(iterations: int)
    | MinMaxChoice(maxDepth: int)
    | MinMaxDiffusionChoice(maxDepth: int, diffusionIterations: int)
    | MinMaxDynamicChoice(depthEarly: int, depthMid: int, depthEnd: int, thresholdMid: int, thresholdEnd: int)
    | MinMaxProportionalChoice(strengthNum: int, strengthDen: int)

  class CompositeStrategy {
    const earlyGameStrategy: StrategyChoice
    const endGameStrategy: StrategyChoice
    const thresholdCalculator: ThresholdCalculator
    var hasSwitched: bool
    /** The move count at the switch, or -1 before it. */
    var switchedAtMove: int

    ghost predicate Valid()
      reads this
    {
      hasSwitched <==> switchedAtMove >= 0
    }

    /** The three-argument constructor once its null check has passed; not yet switched. */
    constructor (early: StrategyChoice, end: StrategyChoice, threshold: ThresholdCalculator)
      ensures Valid()
      ensures earlyGameStrategy == early && endGameStrategy == end && thresholdCalculator == threshold
      ensures !hasSwitched && switchedAtMove == -1
    {
      earlyGameStrategy := early;
      endGameStrategy := end;
      thresholdCalculator := threshold;
      hasSwitched := false;
      switchedAtMove := -1;
    }

    /** `new ComputerStrategyComposite()`: open space with 3 iterations, minimax depth 3, switch at 41 empty squares. */
    constructor Default()
      ensures Valid()
      ensures earlyGameStrategy == OpenSpaceChoice(3) && endGameStrategy == MinMaxChoice(3)
      ensures thresholdCalculator == SimpleThreshold(41)
      ensures !hasSwitched && switchedAtMove == -1
    {
      earlyGameStrategy := OpenSpaceChoice(3);
      endGameStrategy := MinMaxChoice(3);
      thresholdCalculator := DefaultSimple();
      hasSwitched := false;
      switchedAtMove := -1;
    }

    /**
     * `calculateMove`: consults the calculator only while not yet switched, records the move
     * count at the switch, and hands the move to the endgame strategy exactly when switched.
     */
    method CalculateMove(state: GameState) returns (active: StrategyChoice)
      requires Valid() && state.Valid()
      modifies this
      ensures Valid()
      ensures hasSwitched == (old(hasSwitched) || Switches(thresholdCalculator, state.board.value))
      ensures switchedAtMove ==
        if old(hasSwitched) || !Switches(thresholdCalculator, state.board.value) then old(switchedAtMove)
        else |state.history|
      ensures active == if hasSwitched then endGameStrategy else earlyGameStrategy
    {
      if !hasSwitched {
        var switch := ShouldSwitchStrategy(thresholdCalculator, state);
        if switch {
          hasSwitched := true;
          switchedAtMove := state.GetMoveCount();
        }
      }
      active := if hasSwitched then endGameStrategy else earlyGameStrategy;
    }

    /** `resetSwitchState`: back to the flags of a new composite. */
    method ResetSwitchState()
      modifies this
      ensures Valid()
      ensures !hasSwitched && switchedAtMove == -1
    {
      hasSwitched := false;
      switchedAtMove := -1;
    }
  }

  /** The three-argument constructor: refuses a missing component, as the null check does. */
  method Create(early: Option<StrategyChoice>, end: Option<StrategyChoice>, threshold: Option<ThresholdCalculator>)
    returns (r: Result<CompositeStrategy>)
    ensures r.Err? <==> early.None? || end.None? || threshold.None?
    ensures r.Ok? ==>
      r.value.Valid() && !r.value.hasSwitched &&
      r.value.earlyGameStrategy == early.value && r.value.endGameStrategy == end.value &&
      r.value.thresholdCalculator == threshold.value
  {
    if early.None? || end.None? || threshold.None? {
      return Err("All strategy components must be non-null");
    }
    var c := new CompositeStrategy(early.value, end.value, threshold.value);
    return Ok(c);
  }

  /** `ComputerStrategyComposite.Builder`. */
  class CompositeBuilder {
    var earlyGameStrategy: Option<StrategyChoice>
    var endGameStrategy: Option<StrategyChoice>
    var thresholdCalculator: Option<ThresholdCalculator>

    constructor ()
      ensures earlyGameStrategy.None? && endGameStrategy.None? && thresholdCalculator.None?
    {
      earlyGameStrategy := None;
      endGameStrategy := None;
      thresholdCalculator := None;
    }

    method WithEarlyGameStrategy(s: Option<StrategyChoice>)
      modifies this
      ensures earlyGameStrategy == s
      ensures endGameStrategy == old(endGameStrategy) && thresholdCalculator == old(thresholdCalculator)
    {
      earlyGameStrategy := s;
    }

    method WithEndGameStrategy(s: Option<StrategyChoice>)
      modifies this
      ensures endGameStrategy == s
      ensures earlyGameStrategy == old(earlyGameStrategy) && thresholdCalculator == old(thresholdCalculator)
    {
      endGameStrategy := s;
    }

    method WithThreshold(c: Option<ThresholdCalculator>)
      modifies this
      ensures thresholdCalculator == c
      ensures earlyGameStrategy == old(earlyGameStrategy) && endGameStrategy == old(endGameStrategy)
    {
      thresholdCalculator := c;
    }

    method WithSimpleThreshold(emptySquares: int)
      modifies this
      ensures thresholdCalculator == Some(NewSimple(emptySquares))
      ensures earlyGameStrategy == old(earlyGameStrategy) && endGameStrategy == old(endGameStrategy)
    {
      thresholdCalculator := Some(NewSimple(emptySquares));
    }

    method WithDiffusionThreshold(maxOpenness: int, iterations: int)
      modifies this
      ensures thresholdCalculator == Some(NewDiffusion(maxOpenness, iterations))
      ensures earlyGameStrategy == old(earlyGameStrategy) && endGameStrategy == old(endGameStrategy)
    {
      thresholdCalculator := Some(NewDiffusion(maxOpenness, iterations));
    }

    /**
     * `build`: fills every missing component with a default (open space with 3 iterations,
     * minimax depth 3, and a simple threshold of 28, not the 41 of the no-argument constructor).
     */
    method Build() returns (c: CompositeStrategy)
      ensures fresh(c) && c.Valid() && !c.hasSwitched
      ensures c.earlyGameStrategy == if earlyGameStrategy.Some? then earlyGameStrategy.value else OpenSpaceChoice(3)
      ensures c.endGameStrategy == if endGameStrategy.Some? then endGameStrategy.value else MinMaxChoice(3)
      ensures c.thresholdCalculator == if thresholdCalculator.Some? then thresholdCalculator.value else SimpleThreshold(28)
    {
      var early := if earlyGameStrategy.Some? then earlyGameStrategy.value else OpenSpaceChoice(3);
      var end := if endGameStrategy.Some? then endGameStrategy.value else MinMaxChoice(3);
      var threshold := if thresholdCalculator.Some? then thresholdCalculator.value else NewSimple(28);
      c := new CompositeStrategy(early, end, threshold);
    }
  }
}
