/**
 * The depth-limited minimax search with alpha-beta pruning that `ComputerStrategyMinMax` and
 * `ComputerStrategyMinMaxDiffusion` share line for line; they differ only in the leaf
 * evaluation, which is a parameter here.  Player 2 is the computer and maximises.
 *
 * The search is proved against `MinimaxValue`, the plain minimax value without pruning: the
 * pruned search returns a fail-soft bound of it, and the root picks the first move whose
 * unpruned value is the largest.
 */
module Search {
  import opened Options
  import opened Ints
  import opened Pieces
  import opened Boards
  import opened Games
  import opened Moves
  import opened Diffusion

  /** The leaf evaluation: the mobility heuristic, or the diffusion total after `iterations` rounds. */
  datatype Evaluator = Mobility | DiffusionTotal(iterations: nat)

  /** The diffusion strategy's constructor clamps its iterations to 1..3. */
  predicate ValidEvaluator(ev: Evaluator)
  {
    ev.DiffusionTotal? ==> 1 <= ev.iterations <= 3
  }

  /** "Very high but not max" and "very low but not min". */
  const WinScore: int := IntMax - 1000
  const LossScore: int := IntMin + 1000

  // ----- The leaf evaluation -----

  /** The number of pieces in `ps` that fit somewhere on the board: the loop of `countLegalMoves`. */
  function MovablePieces(b: BoardValue, ps: seq<Piece>): nat
    requires WellFormed(b)
  {
    if ps == [] then 0
    else MovablePieces(b, ps[..|ps| - 1]) + (if LegalMoveExists(b, ps[|ps| - 1]) then 1 else 0)
  }

  /** `countLegalMoves`: the movable count, counted for player 2 and against player 1. */
  function MobilityScore(g: GameValue): int
    requires WellFormed(g.board)
  {
    var n: int := MovablePieces(g.board, g.available);
    if g.current == Player2 then n else -n
  }

  /** `evaluatePositionalFactors`: the number of empty squares. */
  function PositionalScore(b: BoardValue): int
    requires WellFormed(b)
  {
    Size * Size - OccupiedCount(b)
  }

  /** The diffusion total, negated when player 1 is to move. */
  function DiffusionScore(g: GameValue, k: nat): int
    requires WellFormed(g.board)
  {
    var total := Total(Openness(g.board, k));
    if g.current == Player1 then -total else total
  }

  /**
   * `evaluatePosition` and `evaluatePositionWithDiffusion`: a finished game scores 0 for a draw
   * and the extreme scores for a win or loss of player 2; a player to move who is stuck loses;
   * otherwise the heuristic.  Neither source method uses its perspective argument.
   */
  function Evaluate(g: GameValue, ev: Evaluator): int
    requires WellFormed(g.board)
  {
    if g.status != Playing then
      (if g.status == Draw then 0 else if g.status == Player2Wins then WinScore else LossScore)
    else if !AnyLegalMove(g) then
      (if g.current == Player2 then LossScore else WinScore)
    else
      match ev
      case Mobility => MobilityScore(g) * 10 + PositionalScore(g.board)
      case DiffusionTotal(k) => DiffusionScore(g, k)
  }

  // ----- The unpruned minimax value -----

  /**
   * The minimax value of `g` searched `depth` plies deep, `maximizing` when player 2 (the
   * computer) chooses at this node: the leaf evaluation at depth 0, in a finished game or
   * when the player to move has no move; otherwise the best over the enumerated moves.
   */
  function MinimaxValue(g: GameValue, depth: nat, maximizing: bool, ev: Evaluator): int
    requires WellFormed(g.board)
    decreases depth, 1, 0
  {
    if depth == 0 || g.status != Playing then Evaluate(g, ev)
    else
      var moves := Enumerate(g, EightWay);
      if moves == [] then Evaluate(g, ev)
      else Best(g, moves, depth - 1, maximizing, ev)
  }

  /** The value of playing `m` in `g` and searching the reply `d` plies deep. */
  function Reply(g: GameValue, m: ComputerMove, d: nat, maximizing: bool, ev: Evaluator): int
    requires WellFormed(g.board)
    decreases d, 2, 0
  {
    MinimaxValue(AfterMove(g, m.piece, m.row, m.col), d, !maximizing, ev)
  }

  /** The largest (when `maximizing`) or smallest reply value over `moves`. */
  function Best(g: GameValue, moves: seq<ComputerMove>, d: nat, maximizing: bool, ev: Evaluator): int
    requires WellFormed(g.board) && |moves| > 0
    decreases d + 1, 0, |moves|
  {
    var v := Reply(g, moves[|moves| - 1], d, maximizing, ev);
    if |moves| == 1 then v
    else if maximizing then Max(Best(g, moves[..|moves| - 1], d, maximizing, ev), v)
    else Min(Best(g, moves[..|moves| - 1], d, maximizing, ev), v)
  }

  /**
   * What a fail-soft alpha-beta search promises about its result `r` for the true value `v`:
   * at or below the window it is an upper bound, at or above it a lower bound, inside it exact.
   */
  predicate FailSoft(r: int, v: int, alpha: int, beta: int)
  {
    (r <= alpha ==> v <= r) && (r >= beta ==> v >= r) && (alpha < r < beta ==> r == v)
  }

  /** The value of a root move: the computer plays it and the opponent replies, `maxDepth - 1` plies deep. */
  function RootValue(g: GameValue, m: ComputerMove, maxDepth: nat, ev: Evaluator): int
    requires WellFormed(g.board)
  {
    Reply(g, m, if maxDepth == 0 then 0 else maxDepth - 1, true, ev)
  }

  /** Entry `i` of `moves` has the largest root value, and every earlier entry a smaller one. */
  predicate FirstBest(g: GameValue, moves: seq<ComputerMove>, i: int, maxDepth: nat, ev: Evaluator)
    requires WellFormed(g.board)
  {
    0 <= i < |moves| &&
    (forall j :: 0 <= j < |moves| ==> RootValue(g, moves[j], maxDepth, ev) <= RootValue(g, moves[i], maxDepth, ev)) &&
    (forall j :: 0 <= j < i ==> RootValue(g, moves[j], maxDepth, ev) < RootValue(g, moves[i], maxDepth, ev))
  }

  /**
   * What `calculateMove` returns for `g`: nothing when there is no move, the only move (with no
   * node searched) when there is one, and otherwise the first move with the largest root value,
   * after searching at least one node per move.
   */
  predicate RootChoice(g: GameValue, maxDepth: nat, ev: Evaluator, best: Option<ComputerMove>, nodes: nat)
    requires WellFormed(g.board)
  {
    var moves := Enumerate(g, EightWay);
    (best.None? <==> moves == []) &&
    (|moves| == 1 ==> best == Some(moves[0]) && nodes == 0) &&
    (|moves| > 1 ==> nodes >= |moves| && exists i :: 0 <= i < |moves| && FirstBest(g, moves, i, maxDepth, ev) && best == Some(moves[i]))
  }

  // ----- The evaluation code -----

  /** `countLegalMoves`: asks the board about every available piece. */
  method CountLegalMoves(state: GameState) returns (score: int)
    requires state.Valid()
    ensures score == MobilityScore(state.Value())
  {
    var ps := state.available;
    var mobility := 0;
    var i := 0;
    while i < |ps|
      invariant 0 <= i <= |ps|
      invariant mobility == MovablePieces(state.board.value, ps[..i])
    {
      var fits := state.board.HasLegalMove(ps[i]);
      if fits {
        mobility := mobility + 1;
      }
      assert ps[..i + 1][..i] == ps[..i];
      i := i + 1;
    }
    assert ps[..i] == ps;
    if state.current == Player2 {
      score := mobility;
    } else {
      score := -mobility;
    }
  }

  /** `evaluatePositionalFactors`. */
  method EvaluatePositionalFactors(board: Board) returns (score: int)
    requires board.Valid()
    ensures score == PositionalScore(board.value)
    ensures 0 <= score <= Size * Size
  {
    var occupied := board.GetOccupiedSquareCount();
    score := Size * Size - occupied;
  }

  /** `evaluateBoardWithDiffusion`: the diffusion grid summed over every cell. */
  method EvaluateBoardWithDiffusion(board: Board, iterations: nat) returns (totalScore: int)
    requires board.Valid()
    ensures totalScore == Total(Openness(board.value, iterations))
    ensures 0 <= totalScore <= Size * Size * Pow8(iterations)
  {
    var evaluation := EvaluateBoardOpenness(board, iterations);
    totalScore := SumGrid(evaluation, Openness(board.value, iterations));
    OpennessTotalBounds(board.value, iterations);
  }

  /** `evaluatePosition` (mobility) and `evaluatePositionWithDiffusion`. */
  method EvaluatePosition(state: GameState, ev: Evaluator) returns (score: int)
    requires state.Valid()
    ensures score == Evaluate(state.Value(), ev)
  {
    if state.status != Playing {
      if state.status == Draw {
        return 0;
      }
      if state.status == Player2Wins {
        return WinScore;
      }
      return LossScore;
    }
    var any := state.HasLegalMoves();
    if !any {
      if state.current == Player2 {
        return LossScore;
      }
      return WinScore;
    }
    match ev
    case Mobility =>
      var mobilityScore := CountLegalMoves(state);
      var positionScore := EvaluatePositionalFactors(state.board);
      score := mobilityScore * 10 + positionScore;
    case DiffusionTotal(k) =>
      score := EvaluateBoardWithDiffusion(state.board, k);
      if state.current == Player1 {
        score := -score;
      }
  }

  // ----- The search code -----

  /**
   * `minimax`: searches copies of `state` and leaves `state` alone.  `nodes` is how much the
   * call adds to `nodesEvaluated`.
   */
  method Minimax(state: GameState, depth: nat, alpha: int, beta: int, maximizing: bool, ev: Evaluator)
    returns (score: int, nodes: nat)
    requires state.Valid() && ValidEvaluator(ev)
    requires IntMin <= alpha < beta <= IntMax
    ensures FailSoft(score, MinimaxValue(state.Value(), depth, maximizing, ev), alpha, beta)
    ensures LossScore <= score <= WinScore
    ensures nodes >= 1
    decreases depth, 1
  {
    if depth == 0 || state.status != Playing {
      score := EvaluatePosition(state, ev);
      EvaluateRange(state.Value(), ev);
      return score, 1;
    }
    var moves := FindAllPossibleMoves(state, EightWay);
    if moves == [] {
      score := EvaluatePosition(state, ev);
      EvaluateRange(state.Value(), ev);
      return score, 1;
    }
    if maximizing {
      score, nodes := MaximizingLoop(state, moves, depth - 1, alpha, beta, ev);
    } else {
      score, nodes := MinimizingLoop(state, moves, depth - 1, alpha, beta, ev);
    }
    nodes := nodes + 1;
  }

  /**
   * One iteration of a move loop: plays `m` on a copy of `state` and searches the reply with
   * the other side to choose.
   */
  method SearchChild(state: GameState, m: ComputerMove, d: nat, alpha: int, beta: int, maximizing: bool, ev: Evaluator)
    returns (score: int, nodes: nat)
    requires state.Valid() && ValidEvaluator(ev)
    requires IntMin <= alpha < beta <= IntMax
    ensures FailSoft(score, Reply(state.Value(), m, d, maximizing, ev), alpha, beta)
    ensures LossScore <= score <= WinScore
    ensures nodes >= 1
    decreases d, 2
  {
    var newState := new GameState.Copy(state);
    var accepted := newState.MakeMove(m.piece, m.row, m.col);
    score, nodes := Minimax(newState, d, alpha, beta, !maximizing, ev);
  }

  /** The maximising branch of `minimax`: raises alpha and stops once it reaches beta. */
  method MaximizingLoop(state: GameState, moves: seq<ComputerMove>, d: nat, alpha: int, beta: int, ev: Evaluator)
    returns (maxEval: int, nodes: nat)
    requires state.Valid() && ValidEvaluator(ev)
    requires IntMin <= alpha < beta <= IntMax && |moves| > 0
    ensures FailSoft(maxEval, Best(state.Value(), moves, d, true, ev), alpha, beta)
    ensures LossScore <= maxEval <= WinScore
    ensures nodes >= 1
    decreases d + 1, 0
  {
    ghost var g := state.Value();
    var a := alpha;
    maxEval := IntMin;
    nodes := 0;
    var i := 0;
    while i < |moves|
      invariant 0 <= i <= |moves|
      invariant a == Max(alpha, maxEval) && a < beta
      invariant i == 0 ==> maxEval == IntMin && nodes == 0
      invariant i > 0 ==> LossScore <= maxEval <= WinScore && nodes >= 1
      invariant i > 0 && maxEval <= alpha ==> Best(g, moves[..i], d, true, ev) <= maxEval
      invariant i > 0 && maxEval > alpha ==> Best(g, moves[..i], d, true, ev) == maxEval
    {
      var eval, n := SearchChild(state, moves[i], d, a, beta, true, ev);
      ghost var v := Reply(g, moves[i], d, true, ev);
      ghost var prev := if i == 0 then v else Best(g, moves[..i], d, true, ev);
      BestStep(g, moves, i, d, true, ev);
      MaxStep(prev, i > 0, v, maxEval, eval, alpha, a, beta);
      nodes := nodes + n;
      maxEval := Max(maxEval, eval);
      a := Max(a, eval);
      if beta <= a {
        BestBounds(g, moves, d, true, ev, i);
        return;
      }
      i := i + 1;
    }
    assert moves[..i] == moves;
  }

  /** The minimising branch of `minimax`: lowers beta and stops once it reaches alpha. */
  method MinimizingLoop(state: GameState, moves: seq<ComputerMove>, d: nat, alpha: int, beta: int, ev: Evaluator)
    returns (minEval: int, nodes: nat)
    requires state.Valid() && ValidEvaluator(ev)
    requires IntMin <= alpha < beta <= IntMax && |moves| > 0
    ensures FailSoft(minEval, Best(state.Value(), moves, d, false, ev), alpha, beta)
    ensures LossScore <= minEval <= WinScore
    ensures nodes >= 1
    decreases d + 1, 0
  {
    ghost var g := state.Value();
    var b := beta;
    minEval := IntMax;
    nodes := 0;
    var i := 0;
    while i < |moves|
      invariant 0 <= i <= |moves|
      invariant b == Min(beta, minEval) && alpha < b
      invariant i == 0 ==> minEval == IntMax && nodes == 0
      invariant i > 0 ==> LossScore <= minEval <= WinScore && nodes >= 1
      invariant i > 0 && minEval >= beta ==> Best(g, moves[..i], d, false, ev) >= minEval
      invariant i > 0 && minEval < beta ==> Best(g, moves[..i], d, false, ev) == minEval
    {
      var eval, n := SearchChild(state, moves[i], d, alpha, b, false, ev);
      ghost var v := Reply(g, moves[i], d, false, ev);
      ghost var prev := if i == 0 then v else Best(g, moves[..i], d, false, ev);
      BestStep(g, moves, i, d, false, ev);
      MinStep(prev, i > 0, v, minEval, eval, alpha, b, beta);
      nodes := nodes + n;
      minEval := Min(minEval, eval);
      b := Min(b, eval);
      if b <= alpha {
        BestBounds(g, moves, d, false, ev, i);
        return;
      }
      i := i + 1;
    }
    assert moves[..i] == moves;
  }

  /**
   * `calculateMove` of both search strategies: no move when there is none, the only move
   * without a search, and otherwise the first move with the largest unpruned value.  `nodes`
   * is the final `nodesEvaluated`.
   */
  method SearchRoot(state: GameState, maxDepth: nat, ev: Evaluator) returns (best: Option<ComputerMove>, nodes: nat)
    requires state.Valid() && ValidEvaluator(ev) && maxDepth >= 1
    ensures RootChoice(state.Value(), maxDepth, ev, best, nodes)
    ensures best.Some? && state.status == Playing ==>
      MoveAccepted(state.Value(), best.value.piece, best.value.row, best.value.col)
  {
    var possibleMoves := FindAllPossibleMoves(state, EightWay);
    if possibleMoves == [] {
      return None, 0;
    }
    if |possibleMoves| == 1 {
      EnumeratedMoveLegal(state.Value(), EightWay, possibleMoves[0]);
      return Some(possibleMoves[0]), 0;
    }
    var move;
    move, nodes := RootLoop(state, possibleMoves, maxDepth, ev);
    EnumeratedMoveLegal(state.Value(), EightWay, move);
    best := Some(move);
  }

  /** The loop over the root moves: each is searched with the window (best so far, max). */
  method RootLoop(state: GameState, moves: seq<ComputerMove>, maxDepth: nat, ev: Evaluator)
    returns (best: ComputerMove, nodes: nat)
    requires state.Valid() && ValidEvaluator(ev) && maxDepth >= 1 && |moves| > 0
    ensures nodes >= |moves|
    ensures exists i :: FirstBest(state.Value(), moves, i, maxDepth, ev) && best == moves[i]
    ensures best in moves
  {
    ghost var g := state.Value();
    ghost var bi := 0;
    best := moves[0];
    var bestScore := IntMin;
    var alpha := IntMin;
    nodes := 0;
    var i := 0;
    while i < |moves|
      invariant 0 <= i <= |moves|
      invariant alpha == bestScore && nodes >= i
      invariant i == 0 ==> bestScore == IntMin
      invariant i > 0 ==> RootSoFar(g, moves, i, bi, bestScore, maxDepth, ev)
      invariant i > 0 ==> LossScore <= bestScore <= WinScore && best == moves[bi]
    {
      var move := moves[i];
      var score, n := SearchChild(state, move, maxDepth - 1, alpha, IntMax, true, ev);
      ghost var v := RootValue(g, move, maxDepth, ev);
      nodes := nodes + n;
      if score > bestScore {
        assert score == v;
        if i == 0 {
          RootStart(g, moves, maxDepth, ev);
        } else {
          RootRaise(g, moves, i, bi, bestScore, maxDepth, ev);
        }
        bestScore := score;
        best := move;
        bi := i;
        alpha := Max(alpha, score);
      } else if i > 0 {
        RootKeep(g, moves, i, bi, bestScore, maxDepth, ev);
      }
      i := i + 1;
    }
    RootDone(g, moves, bi, bestScore, maxDepth, ev);
  }

  /** The loop state of `RootLoop` after `i` moves: entry `bi` is the first best of them. */
  ghost predicate RootSoFar(g: GameValue, moves: seq<ComputerMove>, i: int, bi: int, bestScore: int, maxDepth: nat, ev: Evaluator)
    requires WellFormed(g.board)
  {
    0 <= bi < i <= |moves| &&
    bestScore == RootValue(g, moves[bi], maxDepth, ev) &&
    (forall j :: 0 <= j < i ==> RootValue(g, moves[j], maxDepth, ev) <= bestScore) &&
    (forall j :: 0 <= j < bi ==> RootValue(g, moves[j], maxDepth, ev) < bestScore)
  }

  lemma RootStart(g: GameValue, moves: seq<ComputerMove>, maxDepth: nat, ev: Evaluator)
    requires WellFormed(g.board) && |moves| > 0
    ensures RootSoFar(g, moves, 1, 0, RootValue(g, moves[0], maxDepth, ev), maxDepth, ev)
  {
  }

  lemma RootRaise(g: GameValue, moves: seq<ComputerMove>, i: int, bi: int, bestScore: int, maxDepth: nat, ev: Evaluator)
    requires WellFormed(g.board) && RootSoFar(g, moves, i, bi, bestScore, maxDepth, ev) && i < |moves|
    requires RootValue(g, moves[i], maxDepth, ev) > bestScore
    ensures RootSoFar(g, moves, i + 1, i, RootValue(g, moves[i], maxDepth, ev), maxDepth, ev)
  {
  }

  lemma RootKeep(g: GameValue, moves: seq<ComputerMove>, i: int, bi: int, bestScore: int, maxDepth: nat, ev: Evaluator)
    requires WellFormed(g.board) && RootSoFar(g, moves, i, bi, bestScore, maxDepth, ev) && i < |moves|
    requires RootValue(g, moves[i], maxDepth, ev) <= bestScore
    ensures RootSoFar(g, moves, i + 1, bi, bestScore, maxDepth, ev)
  {
  }

  lemma RootDone(g: GameValue, moves: seq<ComputerMove>, bi: int, bestScore: int, maxDepth: nat, ev: Evaluator)
    requires WellFormed(g.board) && RootSoFar(g, moves, |moves|, bi, bestScore, maxDepth, ev)
    ensures FirstBest(g, moves, bi, maxDepth, ev)
  {
  }


  // ----- Properties -----

  /** The movable count is at most the inventory size and positive exactly when some piece fits. */
  lemma {:induction false} MovablePiecesBounds(b: BoardValue, ps: seq<Piece>)
    requires WellFormed(b)
    ensures MovablePieces(b, ps) <= |ps|
    ensures MovablePieces(b, ps) > 0 <==> exists i :: 0 <= i < |ps| && LegalMoveExists(b, ps[i])
  {
    if ps != [] {
      var init := ps[..|ps| - 1];
      MovablePiecesBounds(b, init);
      if MovablePieces(b, init) > 0 {
        var i :| 0 <= i < |init| && LegalMoveExists(b, init[i]);
        assert ps[i] == init[i];
      }
      forall i | 0 <= i < |init| ensures init[i] == ps[i] { }
    }
  }

  /**
   * Every evaluation lies between the loss and the win score, so no leaf value overflows:
   * the inventory holds at most twelve pieces and each diffusion cell is at most 8^3.
   */
  lemma EvaluateRange(g: GameValue, ev: Evaluator)
    requires WellFormed(g.board) && Partitioned(g) && ValidEvaluator(ev)
    ensures LossScore <= Evaluate(g, ev) <= WinScore
  {
    PartitionBounds(g);
    MovablePiecesBounds(g.board, g.available);
    OccupiedCountBounds(g.board);
    if ev.DiffusionTotal? {
      OpennessTotalBounds(g.board, ev.iterations);
      assert Pow8(ev.iterations) <= 512;
    }
  }

  /**
   * In open play the mobility evaluation is ten times the movable count, signed for the player
   * to move, plus the empty squares: between -120 and 184 with twelve pieces at most.
   */
  lemma MobilityEvaluationRange(g: GameValue)
    requires WellFormed(g.board) && Partitioned(g) && g.status == Playing && AnyLegalMove(g)
    ensures -120 <= Evaluate(g, Mobility) <= 184
    ensures Evaluate(g, Mobility) == MobilityScore(g) * 10 + PositionalScore(g.board)
    ensures -12 <= MobilityScore(g) <= 12 && 0 <= PositionalScore(g.board) <= Size * Size
  {
    PartitionBounds(g);
    MovablePiecesBounds(g.board, g.available);
    OccupiedCountBounds(g.board);
  }

  /**
   * While the game is on a position is scored for whoever is to move: under the mobility
   * heuristic player 2 to move scores at least 10, and the diffusion score is non-negative
   * with player 2 to move and non-positive with player 1 to move.
   */
  lemma EvaluateFavoursMover(g: GameValue, k: nat)
    requires WellFormed(g.board) && g.status == Playing && AnyLegalMove(g)
    ensures g.current == Player2 ==> Evaluate(g, Mobility) >= 10 && Evaluate(g, DiffusionTotal(k)) >= 0
    ensures g.current == Player1 ==> Evaluate(g, DiffusionTotal(k)) <= 0
  {
    MovablePiecesBounds(g.board, g.available);
    OccupiedCountBounds(g.board);
    OpennessTotalBounds(g.board, k);
  }

  /** `Best` over one more move: the running maximum or minimum the loops keep. */
  lemma BestStep(g: GameValue, moves: seq<ComputerMove>, i: int, d: nat, maximizing: bool, ev: Evaluator)
    requires WellFormed(g.board) && 0 <= i < |moves|
    ensures Best(g, moves[..i + 1], d, maximizing, ev) ==
      if i == 0 then Reply(g, moves[0], d, maximizing, ev)
      else if maximizing then Max(Best(g, moves[..i], d, maximizing, ev), Reply(g, moves[i], d, maximizing, ev))
      else Min(Best(g, moves[..i], d, maximizing, ev), Reply(g, moves[i], d, maximizing, ev))
  {
    assert moves[..i + 1][..i] == moves[..i];
  }

  /**
   * One step of the maximising loop on plain numbers: `prev` is the best reply value so far
   * (if any), `v` the true value of the next reply and `eval` its search result in the
   * window (a, beta).  The running maximum then relates to the new best as the loop requires.
   */
  lemma MaxStep(prev: int, hasPrev: bool, v: int, maxEval: int, eval: int, alpha: int, a: int, beta: int)
    requires a == Max(alpha, maxEval) && a < beta
    requires !hasPrev ==> maxEval == IntMin && alpha >= IntMin
    requires hasPrev && maxEval <= alpha ==> prev <= maxEval
    requires hasPrev && maxEval > alpha ==> prev == maxEval
    requires FailSoft(eval, v, a, beta)
    ensures var next, m := if hasPrev then Max(prev, v) else v, Max(maxEval, eval);
      (m <= alpha ==> next <= m) && (alpha < m < beta ==> next == m) && (m >= beta ==> v >= m)
  {
  }

  /** The same step for the minimising loop, with the window (alpha, b). */
  lemma MinStep(prev: int, hasPrev: bool, v: int, minEval: int, eval: int, alpha: int, b: int, beta: int)
    requires b == Min(beta, minEval) && alpha < b
    requires !hasPrev ==> minEval == IntMax && beta <= IntMax
    requires hasPrev && minEval >= beta ==> prev >= minEval
    requires hasPrev && minEval < beta ==> prev == minEval
    requires FailSoft(eval, v, alpha, b)
    ensures var next, m := if hasPrev then Min(prev, v) else v, Min(minEval, eval);
      (m >= beta ==> next >= m) && (alpha < m < beta ==> next == m) && (m <= alpha ==> v <= m)
  {
  }

  /** `Best` is the maximum (or minimum) of the reply values: it bounds each of them. */
  lemma {:induction false} BestBounds(g: GameValue, moves: seq<ComputerMove>, d: nat, maximizing: bool, ev: Evaluator, i: int)
    requires WellFormed(g.board) && 0 <= i < |moves|
    ensures maximizing ==> Best(g, moves, d, maximizing, ev) >= Reply(g, moves[i], d, maximizing, ev)
    ensures !maximizing ==> Best(g, moves, d, maximizing, ev) <= Reply(g, moves[i], d, maximizing, ev)
    decreases |moves|
  {
    if i < |moves| - 1 {
      var init := moves[..|moves| - 1];
      BestBounds(g, init, d, maximizing, ev, i);
      assert init[i] == moves[i];
    }
  }

  /** ... and is attained by one of them. */
  lemma {:induction false} BestAttained(g: GameValue, moves: seq<ComputerMove>, d: nat, maximizing: bool, ev: Evaluator)
    requires WellFormed(g.board) && |moves| > 0
    ensures exists i :: 0 <= i < |moves| && Best(g, moves, d, maximizing, ev) == Reply(g, moves[i], d, maximizing, ev)
    decreases |moves|
  {
    var last := |moves| - 1;
    if last > 0 && Best(g, moves, d, maximizing, ev) != Reply(g, moves[last], d, maximizing, ev) {
      var init := moves[..last];
      BestAttained(g, init, d, maximizing, ev);
      var i :| 0 <= i < |init| && Best(g, init, d, maximizing, ev) == Reply(g, init[i], d, maximizing, ev);
      assert init[i] == moves[i];
    } else {
      assert Best(g, moves, d, maximizing, ev) == Reply(g, moves[last], d, maximizing, ev);
    }
  }
}
