/** `ComputerStrategyOpenSpace.java`: the move whose footprint covers the most open space. */
module OpenSpace {
  import opened Options
  import opened Ints
  import opened Pieces
  import opened Boards
  import opened Games
  import opened Moves
  import opened Diffusion

  /** The strategy's one setting: the number of diffusion iterations, at least 1. */
  datatype OpenSpaceStrategy = OpenSpaceStrategy(iterations: nat)

  /** `new ComputerStrategyOpenSpace(n)`: fewer than one iteration becomes one. */
  function NewOpenSpace(n: int): (s: OpenSpaceStrategy)
    ensures s.iterations >= 1
    ensures n >= 1 ==> s.iterations == n
    ensures n < 1 ==> s.iterations == 1
  {
    OpenSpaceStrategy(if n >= 1 then n else 1)
  }

  /** The grid values under the first `n` footprint cells of the move, skipping cells off the board. */
  function FootprintSum(g: Grid, m: ComputerMove, n: nat): int
    requires IsGrid(g) && n <= |m.piece.shape|
  {
    if n == 0 then 0
    else FootprintSum(g, m, n - 1) + At(g, RowOf(m.piece, m.row, n - 1), ColOf(m.piece, m.col, n - 1))
  }

  /** `scorePossibleMove` on a grid value. */
  function MoveScore(g: Grid, m: ComputerMove): int
    requires IsGrid(g)
  {
    FootprintSum(g, m, |m.piece.shape|)
  }

  /** `scorePossibleMove`. */
  method ScorePossibleMove(m: ComputerMove, evaluation: array2<int>, ghost g: Grid) returns (score: int)
    requires Matches(evaluation, g)
    ensures score == MoveScore(g, m)
  {
    score := 0;
    var k := 0;
    while k < |m.piece.shape|
      invariant 0 <= k <= |m.piece.shape|
      invariant score == FootprintSum(g, m, k)
    {
      var point := m.piece.shape[k];
      var row := m.row + point.y;
      var col := m.col + point.x;
      if 0 <= row < Size && 0 <= col < Size {
        score := score + evaluation[row, col];
      }
      k := k + 1;
    }
  }

  /** The running best score of the list, starting from `Integer.MIN_VALUE`. */
  function BestScore(g: Grid, ms: seq<ComputerMove>): int
    requires IsGrid(g)
  {
    if ms == [] then IntMin else Max(BestScore(g, ms[..|ms| - 1]), MoveScore(g, ms[|ms| - 1]))
  }

  /** The moves of the list scoring exactly `s`, in list order. */
  function ScoringExactly(g: Grid, ms: seq<ComputerMove>, s: int): seq<ComputerMove>
    requires IsGrid(g)
  {
    if ms == [] then []
    else ScoringExactly(g, ms[..|ms| - 1], s) + (if MoveScore(g, ms[|ms| - 1]) == s then [ms[|ms| - 1]] else [])
  }

  /** The scoring loop of `calculateMove`: the best score so far and the moves reaching it. */
  method CollectBest(moves: seq<ComputerMove>, evaluation: array2<int>, ghost g: Grid)
    returns (bestScore: int, bestMoves: seq<ComputerMove>)
    requires Matches(evaluation, g) && NonNegative(g)
    ensures bestScore == BestScore(g, moves)
    ensures bestMoves == ScoringExactly(g, moves, bestScore)
    ensures moves != [] ==> |bestMoves| > 0
    ensures forall m :: m in bestMoves ==> m in moves && MoveScore(g, m) == bestScore
    ensures forall m :: m in moves ==> MoveScore(g, m) <= bestScore
  {
    bestScore := IntMin;
    bestMoves := [];
    for i := 0 to |moves|
      invariant bestScore == BestScore(g, moves[..i])
      invariant bestMoves == ScoringExactly(g, moves[..i], bestScore)
      invariant forall j :: 0 <= j < i ==> MoveScore(g, moves[j]) <= bestScore
      invariant i > 0 ==> |bestMoves| > 0 && bestScore >= 0
      invariant forall m :: m in bestMoves ==> m in moves && MoveScore(g, m) == bestScore
    {
      var m := moves[i];
      var score := ScorePossibleMove(m, evaluation, g);
      ScoreNonNegative(g, m);
      assert moves[..i + 1][..i] == moves[..i];
      if score > bestScore {
        NoneScoreHigher(g, moves[..i], score);
        bestScore := score;
        bestMoves := [m];
      } else if score == bestScore {
        bestMoves := bestMoves + [m];
      }
    }
    assert moves[..|moves|] == moves;
  }

  /**
   * `calculateMove`: scores every enumerated move against the openness grid and picks one of
   * the best at random; `choice` stands for `random.nextInt(bestMoves.size())`.
   */
  method CalculateMove(s: OpenSpaceStrategy, state: GameState, choice: nat) returns (move: Option<ComputerMove>)
    requires state.Valid()
    ensures var g := Openness(state.board.value, s.iterations);
      var moves := Enumerate(state.Value(), TwentyWay);
      var best := ScoringExactly(g, moves, BestScore(g, moves));
      && (move.None? <==> moves == [])
      && (move.Some? ==> |best| > 0 && move.value == best[choice % |best|])
      && (move.Some? ==> move.value in moves && forall m :: m in moves ==> MoveScore(g, m) <= MoveScore(g, move.value))
  {
    var evaluation := EvaluateBoardOpenness(state.board, s.iterations);
    ghost var g := Openness(state.board.value, s.iterations);
    var possibleMoves := FindAllPossibleMoves(state, TwentyWay);
    if |possibleMoves| == 0 {
      return None;
    }
    OpennessBounds(state.board.value, s.iterations);
    var bestScore, bestMoves := CollectBest(possibleMoves, evaluation, g);
    var picked := bestMoves[choice % |bestMoves|];
    assert picked in bestMoves;
    return Some(picked);
  }

  // ----- Properties -----

  lemma {:induction false} FootprintSumNonNegative(g: Grid, m: ComputerMove, n: nat)
    requires IsGrid(g) && NonNegative(g) && n <= |m.piece.shape|
    ensures FootprintSum(g, m, n) >= 0
  {
    if n > 0 {
      FootprintSumNonNegative(g, m, n - 1);
    }
  }

  /** Every score is non-negative on a non-negative grid, so every move beats `Integer.MIN_VALUE`. */
  lemma ScoreNonNegative(g: Grid, m: ComputerMove)
    requires IsGrid(g) && NonNegative(g)
    ensures MoveScore(g, m) >= 0
  {
    FootprintSumNonNegative(g, m, |m.piece.shape|);
  }

  /** No move of the list scores `s` when `s` is above every score of the list. */
  lemma {:induction false} NoneScoreHigher(g: Grid, ms: seq<ComputerMove>, s: int)
    requires IsGrid(g)
    requires forall j :: 0 <= j < |ms| ==> MoveScore(g, ms[j]) < s
    ensures ScoringExactly(g, ms, s) == []
  {
    if ms != [] {
      NoneScoreHigher(g, ms[..|ms| - 1], s);
    }
  }

  /** A placed piece's score is the sum of the grid over its footprint, all on the board. */
  lemma {:induction false} PlaceableScoreCountsAll(b: BoardValue, g: Grid, m: ComputerMove, n: nat)
    requires WellFormed(b) && IsGrid(g) && n <= |m.piece.shape|
    requires Placeable(b, m.piece, m.row, m.col)
    ensures FootprintSum(g, m, n) == FootprintSumOnBoard(g, m, n)
  {
    if n > 0 {
      PlaceableScoreCountsAll(b, g, m, n - 1);
    }
  }

  /** The footprint sum read straight from the grid, for footprints known to be on the board. */
  function FootprintSumOnBoard(g: Grid, m: ComputerMove, n: nat): int
    requires IsGrid(g) && n <= |m.piece.shape|
    requires FootprintInBounds(m.piece, m.row, m.col)
  {
    if n == 0 then 0
    else FootprintSumOnBoard(g, m, n - 1) + g[RowOf(m.piece, m.row, n - 1)][ColOf(m.piece, m.col, n - 1)]
  }
}
