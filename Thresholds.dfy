/**
 * `SimpleThresholdCalculator.java` and `DiffusionThresholdCalculator.java`, the two
 * implementations of `ThresholdCalculator`: when to switch from the early-game strategy to
 * the endgame strategy.
 */
module Thresholds {
  import opened Ints
  import opened Pieces
  import opened Boards
  import opened Games
  import opened Diffusion

  datatype ThresholdCalculator =
    /** Switch when at most `thresholdSquares` squares are empty. */
    | SimpleThreshold(thresholdSquares: int)
    /** Switch when no cell of the `diffusionIterations`-round grid exceeds `maxOpennessThreshold`. */
    | DiffusionThreshold(maxOpennessThreshold: int, diffusionIterations: nat)

  /** What the two constructors guarantee: a non-negative threshold, and 1 to 5 iterations. */
  predicate ValidCalculator(c: ThresholdCalculator)
  {
    match c
    case SimpleThreshold(t) => t >= 0
    case DiffusionThreshold(t, k) => t >= 0 && 1 <= k <= 5
  }

  /** `new SimpleThresholdCalculator(t)`: a negative threshold becomes 0. */
  function NewSimple(t: int): (c: ThresholdCalculator)
    ensures c.SimpleThreshold? && ValidCalculator(c)
    ensures t >= 0 ==> c.thresholdSquares == t
    ensures t < 0 ==> c.thresholdSquares == 0
  {
    SimpleThreshold(Max(0, t))
  }

  /** `new SimpleThresholdCalculator()`. */
  function DefaultSimple(): (c: ThresholdCalculator)
    ensures c == SimpleThreshold(41)
  {
    NewSimple(41)
  }

  /** `new DiffusionThresholdCalculator(t, k)`: the threshold is at least 0, the iterations 1 to 5. */
  function NewDiffusion(t: int, k: int): (c: ThresholdCalculator)
    ensures c.DiffusionThreshold? && ValidCalculator(c)
    ensures t >= 0 ==> c.maxOpennessThreshold == t
    ensures t < 0 ==> c.maxOpennessThreshold == 0
    ensures c.diffusionIterations == Clamp(k, 1, 5)
  {
    DiffusionThreshold(Max(0, t), Clamp(k, 1, 5))
  }

  /** `new DiffusionThresholdCalculator()`. */
  function DefaultDiffusion(): (c: ThresholdCalculator)
    ensures c == DiffusionThreshold(50, 3)
  {
    NewDiffusion(50, 3)
  }

  /** `shouldSwitchStrategy` on a board. */
  predicate Switches(c: ThresholdCalculator, b: BoardValue)
    requires WellFormed(b)
  {
    match c
    case SimpleThreshold(t) => Size * Size - OccupiedCount(b) <= t
    case DiffusionThreshold(t, k) => GridMax(Openness(b, k)) <= t
  }

  /** `shouldSwitchStrategy`: reads the board and changes nothing. */
  method ShouldSwitchStrategy(c: ThresholdCalculator, state: GameState) returns (switch: bool)
    requires state.Valid()
    ensures switch == Switches(c, state.board.value)
  {
    match c
    case SimpleThreshold(thresholdSquares) =>
      var totalSquares := Size * Size;
      var occupiedSquares := state.board.GetOccupiedSquareCount();
      var emptySquares := totalSquares - occupiedSquares;
      switch := emptySquares <= thresholdSquares;
    case DiffusionThreshold(maxOpennessThreshold, diffusionIterations) =>
      var evaluation := EvaluateBoardOpenness(state.board, diffusionIterations);
      var maxOpenness := GetMaxValue(evaluation, Openness(state.board.value, diffusionIterations));
      switch := maxOpenness <= maxOpennessThreshold;
  }

  // ----- Properties -----

  /** Once a board makes a calculator switch, so does every board occupying at least its cells. */
  lemma SwitchesMonotone(c: ThresholdCalculator, a: BoardValue, b: BoardValue)
    requires WellFormed(a) && WellFormed(b) && OccupiesAtLeast(b, a)
    requires Switches(c, a)
    ensures Switches(c, b)
  {
    match c
    case SimpleThreshold(t) =>
      OccupiedCountMonotone(a, b);
    case DiffusionThreshold(t, k) =>
      OpennessMonotone(b, a, k);
  }

  /** So a move, accepted or refused, never takes back a switch decision. */
  lemma MoveKeepsSwitch(c: ThresholdCalculator, g: GameValue, p: Piece, row: int, col: int)
    requires WellFormed(g.board) && Switches(c, g.board)
    ensures Switches(c, AfterMove(g, p, row, col).board)
  {
    if MoveAccepted(g, p, row, col) {
      PlacedOccupiesAtLeast(g.board, p, row, col);
      SwitchesMonotone(c, g.board, AfterMove(g, p, row, col).board);
    }
  }

  /** A simple threshold of 64 or more always switches; threshold 0 switches only on a full board. */
  lemma SimpleThresholdExtremes(t: int, b: BoardValue)
    requires WellFormed(b)
    ensures t >= Size * Size ==> Switches(SimpleThreshold(t), b)
    ensures Switches(SimpleThreshold(0), b) <==> forall r, c :: 0 <= r < Size && 0 <= c < Size ==> b.occupied[r][c]
  {
    OccupiedCountBounds(b);
    FullIffAllOccupied(b);
  }

  /** On a full board every valid calculator switches: no square is empty and every cell stays 0. */
  lemma FullBoardSwitches(c: ThresholdCalculator, b: BoardValue)
    requires WellFormed(b) && ValidCalculator(c)
    requires forall r, c :: 0 <= r < Size && 0 <= c < Size ==> b.occupied[r][c]
    ensures Switches(c, b)
  {
    FullIffAllOccupied(b);
    if c.DiffusionThreshold? {
      FullBoardIsClosed(b, c.diffusionIterations);
    }
  }

  /**
   * On the empty board a simple threshold switches only from 64, and a one-round diffusion
   * threshold only from 8, the largest cell after one round.
   */
  lemma EmptyBoardSwitches(t: int)
    ensures Switches(SimpleThreshold(t), EmptyBoard()) <==> t >= Size * Size
    ensures Switches(DiffusionThreshold(t, 1), EmptyBoard()) <==> t >= 8
  {
    EmptyIffNoneOccupied(EmptyBoard());
    EmptyBoardOnceTotals();
  }
}
