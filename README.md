# Pentomino game model in Dafny

This project models the `model` package of a two-player Pentomino game on an 8×8 board.
Two players take turns placing the twelve pentominoes, which they share. A player who
cannot place any remaining piece loses. The package holds:

- the geometry of points and pieces;
- the board, an 8×8 grid of cells, each empty or holding a piece;
- the game state: available pieces, player to move, status, winner and move history;
- the computer strategies:
  - a random mover;
  - an "open space" mover driven by a diffusion grid;
  - a fail-soft alpha-beta minimax, with a mobility evaluator and with a diffusion evaluator;
  - a composite that switches between two strategies at a threshold;
  - a dynamic minimax that picks its depth by game phase;
  - a proportional minimax that picks its depth from the move count and a strength factor;
- the two threshold calculators the composite uses to decide when to switch.

Layout, one module per source concept:

- `Points`, `Pieces`: value types with their transformation laws.
- `Boards`: `Board` is a class over two `array2` fields, tied by `Valid()` to a ghost `BoardValue`.
  Every mutating method states its new value as a function of the old one.
- `Games`: `GameState` is a class over a `Board` object, described by the ghost `Value()` of type `GameValue`.
  The pure functions `AfterMove`, `AfterUndo`, `AfterGameEndCheck`, ... give the rules. Lemmas over them prove:
  - the pieces stay partitioned between the inventory and the history;
  - undo restores the position;
  - "draw" is never reached.
- `Moves`: the move enumeration shared by the strategies, with both transformation lists of the source.
  The 20-entry list is used by the random and open-space strategies, the 8-entry list by minimax.
  It also holds the game's `makeComputerMove`.
- `Diffusion`: the openness grid, computed on arrays with the loops of the source (over unbounded integers), proved against a
  pure `Openness`, with bounds and monotonicity lemmas.
- `Search`: the shared alpha-beta search.
  - `Minimax` recurses over copied `GameState` objects as the source does.
  - It is proved fail-soft against the unpruned ghost `MinimaxValue`.
  - The root loop is proved to return the first move with the largest value.
- `MinMax`, `MinMaxDiffusion`, `RandomStrategy`, `OpenSpace`: the strategies.
- `Thresholds`, `Composite`, `Dynamic`, `Proportional`: the threshold calculators and the meta-strategies, with their builders.
- `Options`, `Ints`: `Option`/`Result` and Java's `int` range, `Math.max`/`Math.min`.

The code is modelled where it and its documentation comments disagree:

- The dynamic strategy's thresholds are 32 and 18, as its default constructor and builder set them and as the class Javadoc (ComputerStrategyMinMaxDynamic.java:17-20, 74-77) and the builder's field comments (lines 247-248) say; only the field comments (lines 34-35) and the `@param` comments of the full constructor (lines 53-54) give 41 and 21.
- The composite built by the builder uses a simple threshold of 28; the no-argument constructor uses 41.
- The proportional strategy's strength factor is a positive rational `num/den`.
  Its depth is `floor(computerMoves * den / num)`, bounded to 1..6 as the source does.

## Model

| member | source | states |
|---|---|---|
| Points.Add | src/main/java/de/greenoid/game/pentomino/model/Point.java:23-25 | the componentwise sum: translating the result back by the second point gives the first |
| Points.Flip | src/main/java/de/greenoid/game/pentomino/model/Point.java:35-37 | the mirror keeps x and negates y |
| Points.Rotate | src/main/java/de/greenoid/game/pentomino/model/Point.java:27-33 | the point turned `times` quarter turns, `(x, y) -> (y, -x)` each; for `times >= 0` it is entry `times % 4` of the four-entry turn table; a non-positive count leaves the point unchanged |
| Points.Equals | src/main/java/de/greenoid/game/pentomino/model/Point.java:40-45 | true exactly when both coordinates agree |
| Points.RotateOnceAndNonPositive | src/main/java/de/greenoid/game/pentomino/model/Point.java:27-33 | one turn maps `(x, y)` to `(y, -x)`; a count of zero or less does nothing |
| Points.RotatePeriodic | src/main/java/de/greenoid/game/pentomino/model/Point.java:27-33 | four turns are the identity, so turning is periodic with period 4 |
| Points.RotatedClosedForm | src/main/java/de/greenoid/game/pentomino/model/Point.java:27-33 | the loop's result depends only on `times % 4` |
| Points.FlipInvolution | src/main/java/de/greenoid/game/pentomino/model/Point.java:35-37 | mirroring twice gives back the point |
| Points.AddLaws | src/main/java/de/greenoid/game/pentomino/model/Point.java:23-25 | addition is commutative and associative, and `(0, 0)` is neutral |
| Pieces.Rotate | src/main/java/de/greenoid/game/pentomino/model/PentominoPiece.java:45-51 | the piece whose every shape point is turned once, keeping type, colour and name |
| Pieces.Flip | src/main/java/de/greenoid/game/pentomino/model/PentominoPiece.java:56-62 | the piece whose every shape point is mirrored, keeping type, colour and name |
| Pieces.Normalize | src/main/java/de/greenoid/game/pentomino/model/PentominoPiece.java:92-102 | the shape shifted by its minimum x and minimum y |
| Pieces.Minimum | src/main/java/de/greenoid/game/pentomino/model/PentominoPiece.java:92-102 | the stream minimum: a lower bound of every entry that is one of the entries; 0 for an empty shape (`orElse(0)`) |
| Pieces.Equals | src/main/java/de/greenoid/game/pentomino/model/PentominoPiece.java:105-110 | two pieces are equal exactly when their types are equal, whatever their shapes |
| Pieces.HashSetAdd | src/main/java/de/greenoid/game/pentomino/model/PentominoPiece.java:67-87 | adding to a set whose equality is type equality keeps the set when an equal piece is there, and appends otherwise |
| Pieces.GetAllTransformations | src/main/java/de/greenoid/game/pentomino/model/PentominoPiece.java:67-87 | because equality and hashing see only the type, the set of transformations holds just the piece itself |
| Pieces.TransformsKeepIdentity | src/main/java/de/greenoid/game/pentomino/model/PentominoPiece.java:45-102 | rotate, flip and normalize keep type, colour, name and the number of shape points |
| Pieces.TransformsAreEqual | src/main/java/de/greenoid/game/pentomino/model/PentominoPiece.java:105-110 | every transformed piece equals the original under the source's equality |
| Pieces.FourTurnsIdentity | src/main/java/de/greenoid/game/pentomino/model/PentominoPiece.java:45-51 | four rotations give back the same piece |
| Pieces.TurnsModFour | src/main/java/de/greenoid/game/pentomino/model/PentominoPiece.java:45-51 | n rotations equal `n % 4` rotations |
| Pieces.TurnsAdd | src/main/java/de/greenoid/game/pentomino/model/PentominoPiece.java:45-51 | a rotations then b rotations equal a + b rotations |
| Pieces.FlipAfterTurn | src/main/java/de/greenoid/game/pentomino/model/PentominoPiece.java:45-62 | flipping after one turn equals three turns after flipping |
| Pieces.FlipAfterTurns | src/main/java/de/greenoid/game/pentomino/model/PentominoPiece.java:45-62 | flipping after n turns equals 3n turns after flipping |
| Pieces.NormalizedAtOrigin | src/main/java/de/greenoid/game/pentomino/model/PentominoPiece.java:92-102 | a normalized shape has no negative coordinate and touches both axes |
| Pieces.NormalizeIdempotent | src/main/java/de/greenoid/game/pentomino/model/PentominoPiece.java:92-102 | normalizing twice is the same as normalizing once |
| Pieces.AllPieces | src/main/java/de/greenoid/game/pentomino/model/PentominoPiece.java:125-177 | twelve pieces of pairwise distinct types, each of five distinct points |
| Pieces.AllPiecesCoverTypes | src/main/java/de/greenoid/game/pentomino/model/PentominoPiece.java:125-177 | every one of the twelve piece types is created |
| Boards.InBounds | src/main/java/de/greenoid/game/pentomino/model/Board.java:34-36 | a position is valid exactly when its column is in 0..7 and its row-major index names one of the 64 cells |
| Boards.EmptyBoard | src/main/java/de/greenoid/game/pentomino/model/Board.java:13-16 | an 8×8 board with no piece and no occupied cell, consistently |
| Boards.SetCell | src/main/java/de/greenoid/game/pentomino/model/Board.java:62-82 | writing one cell changes that cell and its occupied flag only |
| Boards.Board.constructor | src/main/java/de/greenoid/game/pentomino/model/Board.java:13-16 | a fresh board whose value is the empty board |
| Boards.Board.Copy | src/main/java/de/greenoid/game/pentomino/model/Board.java:21-29 | fresh arrays holding the same cells as the original |
| Boards.Board.IsOccupied | src/main/java/de/greenoid/game/pentomino/model/Board.java:41-46 | the occupied flag of an in-bounds cell; every out-of-bounds cell counts as occupied |
| Boards.Board.GetPiece | src/main/java/de/greenoid/game/pentomino/model/Board.java:51-56 | the piece at an in-bounds cell; nothing out of bounds; a piece is only ever reported on an occupied cell |
| Boards.Board.CanPlaceAt | src/main/java/de/greenoid/game/pentomino/model/Board.java:142-152 | true exactly when every footprint square is on the board and free |
| Boards.Board.PlacePiece | src/main/java/de/greenoid/game/pentomino/model/Board.java:62-82 | when placeable, the board becomes `Placed(old, p, r0, c0)` and true is returned; otherwise false and the board is unchanged |
| Boards.Board.WriteFootprint | src/main/java/de/greenoid/game/pentomino/model/Board.java:73-79 | the write loop of `placePiece`: the footprint cells end up holding the piece and occupied |
| Boards.Board.RemovePiece | src/main/java/de/greenoid/game/pentomino/model/Board.java:87-97 | the in-bounds footprint cells are emptied; nothing else changes |
| Boards.Board.HasLegalMove | src/main/java/de/greenoid/game/pentomino/model/Board.java:102-136 | true exactly when one of the piece's eight orientations fits at some cell |
| Boards.Board.FitsAt | src/main/java/de/greenoid/game/pentomino/model/Board.java:106-131 | the orientation tests at one cell: true exactly when some orientation is placeable there |
| Boards.Board.GetOccupiedSquareCount | src/main/java/de/greenoid/game/pentomino/model/Board.java:157-167 | the number of occupied cells, between 0 and 64 |
| Boards.Board.IsFull | src/main/java/de/greenoid/game/pentomino/model/Board.java:172-174 | true exactly when all 64 cells are occupied |
| Boards.Board.Clear | src/main/java/de/greenoid/game/pentomino/model/Board.java:179-184 | the board becomes the empty board |
| Boards.PlacedConsistent | src/main/java/de/greenoid/game/pentomino/model/Board.java:62-82 | placing keeps the piece grid and the occupied grid in agreement |
| Boards.RemovedConsistent | src/main/java/de/greenoid/game/pentomino/model/Board.java:87-97 | removing keeps the piece grid and the occupied grid in agreement |
| Boards.RemoveUndoesPlace | src/main/java/de/greenoid/game/pentomino/model/Board.java:62-97 | removing a piece just placed at the same position restores the board exactly |
| Boards.PlacedOccupiesAtLeast | src/main/java/de/greenoid/game/pentomino/model/Board.java:62-82 | placing never frees a cell |
| Boards.OccupiedCountMonotone | src/main/java/de/greenoid/game/pentomino/model/Board.java:157-167 | a board occupying at least the cells of another has at least its count |
| Boards.OccupiedCountBounds | src/main/java/de/greenoid/game/pentomino/model/Board.java:157-167 | the occupied count lies between 0 and 64 |
| Boards.EmptyIffNoneOccupied | src/main/java/de/greenoid/game/pentomino/model/Board.java:157-167 | the count is 0 exactly when no cell is occupied, and it is 0 on the empty board |
| Boards.FullIffAllOccupied | src/main/java/de/greenoid/game/pentomino/model/Board.java:172-174 | the count is 64 exactly when every cell is occupied |
| Games.RemoveFirst | src/main/java/de/greenoid/game/pentomino/model/GameState.java:99 | removing a piece shortens the inventory by one exactly when it is there |
| Games.Initial | src/main/java/de/greenoid/game/pentomino/model/GameState.java:25-31 | the start position is an empty, consistent board |
| Games.GameState.constructor | src/main/java/de/greenoid/game/pentomino/model/GameState.java:25-31 | empty board, all twelve pieces, player 1 to move, playing, no winner, empty history |
| Games.GameState.Copy | src/main/java/de/greenoid/game/pentomino/model/GameState.java:36-43 | a deep copy: a fresh board with equal contents and an equal state |
| Games.GameState.GetMoveCount | src/main/java/de/greenoid/game/pentomino/model/GameState.java:224-226 | the length of the move history |
| Games.GameState.UpdatePiece | src/main/java/de/greenoid/game/pentomino/model/GameState.java:56-64 | replaces the inventory entry at an in-range index only when the types match |
| Games.GameState.HasLegalMoves | src/main/java/de/greenoid/game/pentomino/model/GameState.java:117-124 | true exactly when some available piece fits somewhere |
| Games.GameState.CheckGameEnd | src/main/java/de/greenoid/game/pentomino/model/GameState.java:129-139 | a stuck player to move loses to the other player; an empty inventory otherwise makes a draw |
| Games.GameState.MakeMove | src/main/java/de/greenoid/game/pentomino/model/GameState.java:85-112 | accepted exactly when playing, the piece is available and placeable; the state becomes `AfterMove` |
| Games.GameState.UndoLastMove | src/main/java/de/greenoid/game/pentomino/model/GameState.java:144-165 | true exactly when there was a move; the state becomes `AfterUndo` |
| Games.GameState.CheckCurrentPlayerMoves | src/main/java/de/greenoid/game/pentomino/model/GameState.java:170-180 | during play, a stuck player to move loses; otherwise nothing changes |
| Games.GameState.Reset | src/main/java/de/greenoid/game/pentomino/model/GameState.java:211-219 | the state becomes the start position |
| Games.KindsOfAppend | src/main/java/de/greenoid/game/pentomino/model/GameState.java:85-165 | the type list of a concatenation is the concatenation of the type lists |
| Games.RemoveFirstKinds | src/main/java/de/greenoid/game/pentomino/model/GameState.java:99 | removing an available piece takes exactly one entry of its type out of the inventory, and removing an absent one changes nothing |
| Games.DrawUnreachable | src/main/java/de/greenoid/game/pentomino/model/GameState.java:129-139 | the end check never yields a draw: an empty inventory always leaves the player to move stuck, so the last mover wins |
| Games.MoveNeverDraws | src/main/java/de/greenoid/game/pentomino/model/GameState.java:85-139 | no move turns a game that is not drawn into a draw |
| Games.MoveOutcome | src/main/java/de/greenoid/game/pentomino/model/GameState.java:85-112 | an accepted move places the piece, removes one of its type, records it, passes the turn, and ends the game exactly when the next player is stuck, in favour of the mover |
| Games.RefusedMoveUnchanged | src/main/java/de/greenoid/game/pentomino/model/GameState.java:85-112 | a refused move changes nothing |
| Games.UndoAfterMove | src/main/java/de/greenoid/game/pentomino/model/GameState.java:144-165 | undoing an accepted move restores board, player, history and inventory contents, and reopens play |
| Games.InitialPartitioned | src/main/java/de/greenoid/game/pentomino/model/GameState.java:25-31 | at the start every type is in the inventory, once |
| Games.MovedPartitioned | src/main/java/de/greenoid/game/pentomino/model/GameState.java:94-106 | the placement step of an accepted move moves one type from the inventory to the history |
| Games.MovePartitioned | src/main/java/de/greenoid/game/pentomino/model/GameState.java:85-112 | every move keeps each type in exactly one of inventory and history |
| Games.UndoPartitioned | src/main/java/de/greenoid/game/pentomino/model/GameState.java:144-165 | undo keeps each type in exactly one of inventory and history |
| Games.UpdatePartitioned | src/main/java/de/greenoid/game/pentomino/model/GameState.java:56-64 | replacing a piece by a transformation of the same type keeps the partition |
| Games.PartitionBounds | src/main/java/de/greenoid/game/pentomino/model/GameState.java:85-165 | inventory and history together always hold twelve pieces, and the inventory has no repeated type |
| Moves.GetAllTransformations20 | src/main/java/de/greenoid/game/pentomino/model/ComputerStrategyRandom.java:67-87 | the twenty-entry list: for each of four turns, the turned piece, its mirror and three further turns of the mirror |
| Moves.GetAllTransformations8 | src/main/java/de/greenoid/game/pentomino/model/ComputerStrategyMinMax.java:307-325 | the eight-entry list: four turns, then four turns of the mirror |
| Moves.GetAllTransformations | src/main/java/de/greenoid/game/pentomino/model/ComputerStrategyMinMaxDiffusion.java:319-337 | each strategy's list, chosen by its style |
| Moves.TransformsKeepKind | src/main/java/de/greenoid/game/pentomino/model/ComputerStrategyRandom.java:67-87 | every listed transformation has the piece's type |
| Moves.TwentyCoversEight | src/main/java/de/greenoid/game/pentomino/model/ComputerStrategyRandom.java:67-87 | the twenty-entry list contains all eight orientations |
| Moves.TwentyAreOrientations | src/main/java/de/greenoid/game/pentomino/model/ComputerStrategyRandom.java:67-87 | each of its twenty entries is one of the eight orientations |
| Moves.TransformsAreOrientations | src/main/java/de/greenoid/game/pentomino/model/ComputerStrategyOpenSpace.java:178-198 | both lists hold exactly the eight orientations, so they enumerate the same moves up to repetition |
| Moves.ScanBoard | src/main/java/de/greenoid/game/pentomino/model/ComputerStrategyRandom.java:47-53 | the row-major scan yields exactly the placeable positions of one orientation |
| Moves.ScanOrientations | src/main/java/de/greenoid/game/pentomino/model/ComputerStrategyRandom.java:45-54 | the scans of all listed orientations, in order |
| Moves.FindAllPossibleMoves | src/main/java/de/greenoid/game/pentomino/model/ComputerStrategyRandom.java:39-58 | the enumeration `Enumerate` of the available pieces |
| Moves.GridMovesMember | src/main/java/de/greenoid/game/pentomino/model/ComputerStrategyRandom.java:47-53 | a move is in one orientation's scan exactly when it is placeable at an on-board cell |
| Moves.OrientMovesMember | src/main/java/de/greenoid/game/pentomino/model/ComputerStrategyRandom.java:45-54 | a move is in an orientation list's scan exactly when its piece is listed and placeable at an on-board cell |
| Moves.EnumerateMember | src/main/java/de/greenoid/game/pentomino/model/ComputerStrategyRandom.java:39-58 | a move is enumerated exactly when it is a listed transformation of an available piece, placeable at an on-board cell |
| Moves.EnumeratedMoveLegal | src/main/java/de/greenoid/game/pentomino/model/ComputerStrategyRandom.java:39-58 | every enumerated move is accepted by `makeMove` while the game is on |
| Moves.EnumerateEmptyIffStuck | src/main/java/de/greenoid/game/pentomino/model/ComputerStrategyRandom.java:39-58 | no move is enumerated exactly when no available piece fits, which is what `hasLegalMoves` reports |
| Moves.MakeComputerMove | src/main/java/de/greenoid/game/pentomino/model/GameState.java:188-206 | outside play it refuses; with no answer it runs the stuck-player check; otherwise it applies `makeMove` to the answer |
| RandomStrategy.CalculateMove | src/main/java/de/greenoid/game/pentomino/model/ComputerStrategyRandom.java:16-25 | none exactly when nothing is enumerated (when no piece fits); otherwise the enumerated move at the drawn index, which is legal |
| Diffusion.InitialEvaluation | src/main/java/de/greenoid/game/pentomino/model/ComputerStrategyOpenSpace.java:73-79 | 1 for a free cell and 0 for an occupied one |
| Diffusion.NeighbourSumAt | src/main/java/de/greenoid/game/pentomino/model/ComputerStrategyOpenSpace.java:88-105 | the sum of the up to eight on-board neighbours of a cell |
| Diffusion.DiffuseOnce | src/main/java/de/greenoid/game/pentomino/model/ComputerStrategyOpenSpace.java:83-107 | a fresh grid holding one diffusion step |
| Diffusion.EvaluateBoardOpenness | src/main/java/de/greenoid/game/pentomino/model/ComputerStrategyOpenSpace.java:72-113 | the initial grid diffused `iterations` times |
| Diffusion.SumGrid | src/main/java/de/greenoid/game/pentomino/model/ComputerStrategyMinMaxDiffusion.java:278-284 | the sum of all 64 grid values |
| Diffusion.GetMaxValue | src/main/java/de/greenoid/game/pentomino/model/DiffusionThresholdCalculator.java:119-127 | the largest value in the grid, starting from 0 |
| Diffusion.OpennessBounds | src/main/java/de/greenoid/game/pentomino/model/ComputerStrategyOpenSpace.java:72-113 | after k steps every value lies between 0 and 8^k |
| Diffusion.OpennessTotalBounds | src/main/java/de/greenoid/game/pentomino/model/ComputerStrategyMinMaxDiffusion.java:238-287 | the diffusion total lies between 0 and 64 · 8^k |
| Diffusion.OpennessMonotone | src/main/java/de/greenoid/game/pentomino/model/ComputerStrategyOpenSpace.java:72-113 | a board with more free cells has pointwise higher openness, a higher total and a higher maximum |
| Diffusion.GridMaxIs | src/main/java/de/greenoid/game/pentomino/model/DiffusionThresholdCalculator.java:119-127 | the maximum bounds every value and, when positive, is attained |
| Diffusion.FullBoardIsClosed | src/main/java/de/greenoid/game/pentomino/model/ComputerStrategyOpenSpace.java:72-113 | on a full board every openness value and the maximum are 0 |
| Diffusion.EmptyBoardOnceGrid | src/main/java/de/greenoid/game/pentomino/model/ComputerStrategyOpenSpace.java:72-113 | one step on the empty board gives 3 in the corners, 5 on the edges and 8 inside |
| Diffusion.EmptyBoardOnceTotals | src/main/java/de/greenoid/game/pentomino/model/ComputerStrategyOpenSpace.java:72-113 | one step on the empty board totals 420 and peaks at 8 |
| OpenSpace.NewOpenSpace | src/main/java/de/greenoid/game/pentomino/model/ComputerStrategyOpenSpace.java:24-26 | iterations of at least 1, the given value when it is positive |
| OpenSpace.ScorePossibleMove | src/main/java/de/greenoid/game/pentomino/model/ComputerStrategyOpenSpace.java:123-141 | the sum of the grid over the on-board footprint squares |
| OpenSpace.CollectBest | src/main/java/de/greenoid/game/pentomino/model/ComputerStrategyOpenSpace.java:40-54 | the best score over the moves and, in order, exactly the moves that reach it; nonempty for nonempty moves |
| OpenSpace.CalculateMove | src/main/java/de/greenoid/game/pentomino/model/ComputerStrategyOpenSpace.java:29-58 | none exactly when nothing is enumerated; otherwise the drawn one of the best-scoring moves, which no enumerated move outscores |
| OpenSpace.ScoreNonNegative | src/main/java/de/greenoid/game/pentomino/model/ComputerStrategyOpenSpace.java:123-141 | a move's score is never negative |
| OpenSpace.PlaceableScoreCountsAll | src/main/java/de/greenoid/game/pentomino/model/ComputerStrategyOpenSpace.java:123-141 | for a placeable move the bounds test never skips a square |
| Search.CountLegalMoves | src/main/java/de/greenoid/game/pentomino/model/ComputerStrategyMinMax.java:233-260 | the number of movable pieces, counted for player 2 and against player 1 |
| Search.EvaluatePositionalFactors | src/main/java/de/greenoid/game/pentomino/model/ComputerStrategyMinMax.java:266-275 | the number of empty squares, between 0 and 64 |
| Search.EvaluateBoardWithDiffusion | src/main/java/de/greenoid/game/pentomino/model/ComputerStrategyMinMaxDiffusion.java:238-287 | the total of the diffused grid, between 0 and 64 · 8^k |
| Search.EvaluatePosition | src/main/java/de/greenoid/game/pentomino/model/ComputerStrategyMinMax.java:182-227 | the evaluation: 0 for a draw, the extreme scores for a finished or stuck game, else the heuristic |
| Search.EvaluateRange | src/main/java/de/greenoid/game/pentomino/model/ComputerStrategyMinMax.java:182-227 | every evaluation lies between the loss and the win score |
| Search.MobilityEvaluationRange | src/main/java/de/greenoid/game/pentomino/model/ComputerStrategyMinMax.java:218-275 | in open play the mobility evaluation is ten times the signed movable count plus the empty squares, between -120 and 184 |
| Search.EvaluateFavoursMover | src/main/java/de/greenoid/game/pentomino/model/ComputerStrategyMinMaxDiffusion.java:181-228 | in open play the mobility score is at least 10 with player 2 to move, and the diffusion score has the mover's sign |
| Search.MovablePiecesBounds | src/main/java/de/greenoid/game/pentomino/model/ComputerStrategyMinMax.java:233-260 | the movable count is at most the inventory size, and positive exactly when some piece fits |
| Search.Minimax | src/main/java/de/greenoid/game/pentomino/model/ComputerStrategyMinMax.java:106-164 | fail-soft alpha-beta: exact inside the window, a bound outside it, against the unpruned minimax value; within the score range; counts a node |
| Search.SearchChild | src/main/java/de/greenoid/game/pentomino/model/ComputerStrategyMinMax.java:132-135 | copying the state, playing a move and searching it is fail-soft against the reply's value |
| Search.MaximizingLoop | src/main/java/de/greenoid/game/pentomino/model/ComputerStrategyMinMax.java:128-144 | the maximizing loop with beta cut-off is fail-soft against the best reply value |
| Search.MinimizingLoop | src/main/java/de/greenoid/game/pentomino/model/ComputerStrategyMinMax.java:146-162 | the minimizing loop with alpha cut-off is fail-soft against the worst reply value |
| Search.SearchRoot | src/main/java/de/greenoid/game/pentomino/model/ComputerStrategyMinMax.java:43-94 | none exactly when there is no move; the only move without search; otherwise the first move of largest root value; the move is legal |
| Search.RootLoop | src/main/java/de/greenoid/game/pentomino/model/ComputerStrategyMinMax.java:68-87 | the root loop keeps the first strictly better move, so it returns the first move of largest value |
| Search.BestBounds | src/main/java/de/greenoid/game/pentomino/model/ComputerStrategyMinMax.java:128-162 | the best value bounds every reply value in its direction |
| Search.BestAttained | src/main/java/de/greenoid/game/pentomino/model/ComputerStrategyMinMax.java:128-162 | the best value is the value of some move |
| MinMax.MinMaxStrategy.constructor | src/main/java/de/greenoid/game/pentomino/model/ComputerStrategyMinMax.java:31-33 | the depth is clamped to 1..5 |
| MinMax.MinMaxStrategy.Default | src/main/java/de/greenoid/game/pentomino/model/ComputerStrategyMinMax.java:38-40 | depth 3 |
| MinMax.MinMaxStrategy.CalculateMove | src/main/java/de/greenoid/game/pentomino/model/ComputerStrategyMinMax.java:43-94 | the root choice of the mobility search at the strategy's depth, and a legal move |
| MinMaxDiffusion.MinMaxDiffusionStrategy.constructor | src/main/java/de/greenoid/game/pentomino/model/ComputerStrategyMinMaxDiffusion.java:34-37 | depth clamped to 1..5 and iterations to 1..3 |
| MinMaxDiffusion.MinMaxDiffusionStrategy.Default | src/main/java/de/greenoid/game/pentomino/model/ComputerStrategyMinMaxDiffusion.java:42-44 | depth 3 and two iterations |
| MinMaxDiffusion.MinMaxDiffusionStrategy.CalculateMove | src/main/java/de/greenoid/game/pentomino/model/ComputerStrategyMinMaxDiffusion.java:47-99 | the root choice of the diffusion search, and a legal move |
| Thresholds.NewSimple | src/main/java/de/greenoid/game/pentomino/model/SimpleThresholdCalculator.java:28-30 | a simple calculator with the threshold raised to at least 0 |
| Thresholds.DefaultSimple | src/main/java/de/greenoid/game/pentomino/model/SimpleThresholdCalculator.java:37-39 | threshold 41 |
| Thresholds.NewDiffusion | src/main/java/de/greenoid/game/pentomino/model/DiffusionThresholdCalculator.java:37-40 | openness threshold raised to at least 0, iterations clamped to 1..5 |
| Thresholds.DefaultDiffusion | src/main/java/de/greenoid/game/pentomino/model/DiffusionThresholdCalculator.java:45-47 | threshold 50 with three iterations |
| Thresholds.ShouldSwitchStrategy | src/main/java/de/greenoid/game/pentomino/model/DiffusionThresholdCalculator.java:50-55 | simple: at most the threshold empty squares; diffusion: maximum openness at most the threshold |
| Thresholds.SwitchesMonotone | src/main/java/de/greenoid/game/pentomino/model/SimpleThresholdCalculator.java:42-48 | once a board triggers the switch, every board occupying at least its cells does too |
| Thresholds.MoveKeepsSwitch | src/main/java/de/greenoid/game/pentomino/model/SimpleThresholdCalculator.java:42-48 | a move never undoes a triggered switch |
| Thresholds.SimpleThresholdExtremes | src/main/java/de/greenoid/game/pentomino/model/SimpleThresholdCalculator.java:42-48 | a threshold of 64 or more always switches; threshold 0 switches exactly on a full board |
| Thresholds.FullBoardSwitches | src/main/java/de/greenoid/game/pentomino/model/DiffusionThresholdCalculator.java:50-55 | every valid calculator switches on a full board |
| Thresholds.EmptyBoardSwitches | src/main/java/de/greenoid/game/pentomino/model/DiffusionThresholdCalculator.java:50-55 | on the empty board, simple switches exactly at threshold 64 or more, one-step diffusion at 8 or more |
| Composite.CompositeStrategy.constructor | src/main/java/de/greenoid/game/pentomino/model/ComputerStrategyComposite.java:50-62 | stores the three components, not yet switched |
| Composite.CompositeStrategy.Default | src/main/java/de/greenoid/game/pentomino/model/ComputerStrategyComposite.java:72-76 | open space with 3 iterations, minimax depth 3, simple threshold 41 |
| Composite.Create | src/main/java/de/greenoid/game/pentomino/model/ComputerStrategyComposite.java:50-62 | an error exactly when some component is missing |
| Composite.CompositeStrategy.CalculateMove | src/main/java/de/greenoid/game/pentomino/model/ComputerStrategyComposite.java:79-96 | the switch latches on the first time the threshold fires, recording the move count; the end-game component is active from then on |
| Composite.CompositeStrategy.ResetSwitchState | src/main/java/de/greenoid/game/pentomino/model/ComputerStrategyComposite.java:150-153 | back to not switched, switch move -1 |
| Composite.CompositeBuilder.constructor | src/main/java/de/greenoid/game/pentomino/model/ComputerStrategyComposite.java:168-171 | nothing configured |
| Composite.CompositeBuilder.WithEarlyGameStrategy | src/main/java/de/greenoid/game/pentomino/model/ComputerStrategyComposite.java:176-179 | sets the early-game component only |
| Composite.CompositeBuilder.WithEndGameStrategy | src/main/java/de/greenoid/game/pentomino/model/ComputerStrategyComposite.java:184-187 | sets the end-game component only |
| Composite.CompositeBuilder.WithThreshold | src/main/java/de/greenoid/game/pentomino/model/ComputerStrategyComposite.java:192-195 | sets the calculator only |
| Composite.CompositeBuilder.WithSimpleThreshold | src/main/java/de/greenoid/game/pentomino/model/ComputerStrategyComposite.java:202-205 | sets a simple calculator built as its constructor builds it |
| Composite.CompositeBuilder.WithDiffusionThreshold | src/main/java/de/greenoid/game/pentomino/model/ComputerStrategyComposite.java:213-216 | sets a diffusion calculator built as its constructor builds it |
| Composite.CompositeBuilder.Build | src/main/java/de/greenoid/game/pentomino/model/ComputerStrategyComposite.java:222-234 | the configured components, defaulting to open space 3, minimax 3 and a simple threshold of 28 |
| Dynamic.PhaseFor | src/main/java/de/greenoid/game/pentomino/model/ComputerStrategyMinMaxDynamic.java:126-151 | end when the empty squares are at most the end threshold, else mid when at most the mid threshold, else early |
| Dynamic.MinMaxDynamicStrategy.constructor | src/main/java/de/greenoid/game/pentomino/model/ComputerStrategyMinMaxDynamic.java:56-70 | stores depths and thresholds, starts at the early depth, nothing switched |
| Dynamic.MinMaxDynamicStrategy.Default | src/main/java/de/greenoid/game/pentomino/model/ComputerStrategyMinMaxDynamic.java:87-89 | depths 2, 3, 4 and thresholds 32, 18 |
| Dynamic.MinMaxDynamicStrategy.DeterminePhase | src/main/java/de/greenoid/game/pentomino/model/ComputerStrategyMinMaxDynamic.java:126-151 | returns the phase for the empty squares and latches the first switch into mid and into end with its move count |
| Dynamic.MinMaxDynamicStrategy.CalculateMove | src/main/java/de/greenoid/game/pentomino/model/ComputerStrategyMinMaxDynamic.java:92-121 | picks the phase from the empty squares, sets that phase's depth and returns that phase's minimax choice; a phase flag is set and its switch move recorded as the move count only the first time that phase is returned; the other phases' strategies keep their node counts |
| Dynamic.MinMaxDynamicStrategy.SearchPhase | src/main/java/de/greenoid/game/pentomino/model/ComputerStrategyMinMaxDynamic.java:100-120 | the per-phase switch: that phase's depth and that phase's minimax choice; the phase flags, the switch moves and the other phases' strategies are left as they were |
| Dynamic.MinMaxDynamicStrategy.GetCurrentPhase | src/main/java/de/greenoid/game/pentomino/model/ComputerStrategyMinMaxDynamic.java:176-180 | the most advanced phase reached so far |
| Dynamic.PhaseMonotone | src/main/java/de/greenoid/game/pentomino/model/ComputerStrategyMinMaxDynamic.java:126-151 | fewer empty squares never give an earlier phase |
| Dynamic.MostAdvancedBounds | src/main/java/de/greenoid/game/pentomino/model/ComputerStrategyMinMaxDynamic.java:176-180 | the reported phase is at least every phase seen, and is early or one of them |
| Dynamic.DynamicBuilder.constructor | src/main/java/de/greenoid/game/pentomino/model/ComputerStrategyMinMaxDynamic.java:243-248 | the builder's defaults 2, 3, 4, 32, 18 |
| Dynamic.DynamicBuilder.WithEarlyDepth | src/main/java/de/greenoid/game/pentomino/model/ComputerStrategyMinMaxDynamic.java:250-253 | sets the early depth only |
| Dynamic.DynamicBuilder.WithMidDepth | src/main/java/de/greenoid/game/pentomino/model/ComputerStrategyMinMaxDynamic.java:255-258 | sets the mid depth only |
| Dynamic.DynamicBuilder.WithEndDepth | src/main/java/de/greenoid/game/pentomino/model/ComputerStrategyMinMaxDynamic.java:260-263 | sets the end depth only |
| Dynamic.DynamicBuilder.WithMidThreshold | src/main/java/de/greenoid/game/pentomino/model/ComputerStrategyMinMaxDynamic.java:265-268 | sets the mid threshold only |
| Dynamic.DynamicBuilder.WithEndThreshold | src/main/java/de/greenoid/game/pentomino/model/ComputerStrategyMinMaxDynamic.java:270-273 | sets the end threshold only |
| Dynamic.DynamicBuilder.Build | src/main/java/de/greenoid/game/pentomino/model/ComputerStrategyMinMaxDynamic.java:275-278 | a strategy with the configured depths and thresholds |
| Proportional.JavaDiv | src/main/java/de/greenoid/game/pentomino/model/ComputerStrategyMinMaxProportional.java:69 | Java's integer division truncates toward zero: for a >= 0 the quotient is the largest q >= 0 with q·b <= a, for a < 0 the smallest q <= 0 with a <= q·b |
| Proportional.DepthForMoveCount | src/main/java/de/greenoid/game/pentomino/model/ComputerStrategyMinMaxProportional.java:142-146 | always a depth from 1 to 6 |
| Proportional.MinMaxProportionalStrategy.constructor | src/main/java/de/greenoid/game/pentomino/model/ComputerStrategyMinMaxProportional.java:46-54 | stores a positive strength, depth 1, no move seen |
| Proportional.MinMaxProportionalStrategy.Default | src/main/java/de/greenoid/game/pentomino/model/ComputerStrategyMinMaxProportional.java:59-61 | strength 1, depth 1 |
| Proportional.Create | src/main/java/de/greenoid/game/pentomino/model/ComputerStrategyMinMaxProportional.java:46-54 | an error exactly when the strength is not positive |
| Proportional.MinMaxProportionalStrategy.CalculateMove | src/main/java/de/greenoid/game/pentomino/model/ComputerStrategyMinMaxProportional.java:64-104 | sets the depth for the current move count and returns the minimax root choice at that depth |
| Proportional.LowerAscii | src/main/java/de/greenoid/game/pentomino/model/ComputerStrategyMinMaxProportional.java:190 | lower-cases exactly the letters A to Z, keeping length |
| Proportional.DifficultyStrength | src/main/java/de/greenoid/game/pentomino/model/ComputerStrategyMinMaxProportional.java:189-204 | hard, fair and easy in any letter case give 1, 3/2 and 2; anything else is an error |
| Proportional.ProportionalBuilder.constructor | src/main/java/de/greenoid/game/pentomino/model/ComputerStrategyMinMaxProportional.java:166-168 | strength 1 |
| Proportional.ProportionalBuilder.WithStrength | src/main/java/de/greenoid/game/pentomino/model/ComputerStrategyMinMaxProportional.java:175-181 | accepts exactly a positive strength and leaves the builder unchanged otherwise |
| Proportional.ProportionalBuilder.WithDifficulty | src/main/java/de/greenoid/game/pentomino/model/ComputerStrategyMinMaxProportional.java:189-204 | accepts exactly the three presets and leaves the builder unchanged otherwise |
| Proportional.ProportionalBuilder.Build | src/main/java/de/greenoid/game/pentomino/model/ComputerStrategyMinMaxProportional.java:211-213 | a strategy with the configured strength at depth 1 |
| Proportional.ComputerMoveCountMonotone | src/main/java/de/greenoid/game/pentomino/model/ComputerStrategyMinMaxProportional.java:143 | the computer's move count `(total + 1) / 2` grows with the total |
| Proportional.DepthMonotone | src/main/java/de/greenoid/game/pentomino/model/ComputerStrategyMinMaxProportional.java:142-146 | for a fixed strength, the depth never drops as the game goes on |
| Proportional.HardDepth | src/main/java/de/greenoid/game/pentomino/model/ComputerStrategyMinMaxProportional.java:142-146 | at strength 1 the depth is the computer's move count, bounded to 1..6 |
| Proportional.StrongerSearchesDeeper | src/main/java/de/greenoid/game/pentomino/model/ComputerStrategyMinMaxProportional.java:142-146 | a smaller strength factor never searches shallower |

## Left out

- The Swing user interface, console logging, `getStrategyName`, `getDescription` and `toString`: presentation only.
- `PentominoPiece.hashCode` (PentominoPiece.java:113-115) is not a separate member: it returns the type's hash and so agrees with `equals`, and `Pieces.HashSetAdd`, which inserts under type equality, captures the set behaviour the two decide together.
- Trivial getters are not modelled: they are fields of the classes.
  Examples: `getNodesEvaluated`, `getCurrentDepth`, `hasSwitched`, `getSwitchMove`, `getThreshold`, `getStrengthFactor`.
- The minimax search's wall-clock limit (`MAX_THINKING_TIME_MS`, `System.currentTimeMillis`) is not modelled.
  The search properties are stated for a search that is never cut short.
- The model follows the sequential `ComputerStrategyMinMax` as given, which has no executor and no `shutdown`. The calls to `shutdown()` in the dynamic and proportional strategies are dropped.
- `java.util.Random`: its draw is a `choice` parameter, reduced modulo the number of candidates as `nextInt(n)` bounds it.
- The strategy interface: the composite returns which configured component is active instead of calling it.
  - Its components are the configured strategies of this model, not further composites.
  - `Moves.MakeComputerMove` takes the strategy's answer as a parameter.
- Java's 32-bit `int` is modelled only where the source relies on its limits (`Integer.MIN_VALUE`, `Integer.MAX_VALUE`). The scores, counts and diffusion totals are unbounded integers.
  The bounds lemmas show that the diffusion totals stay inside the `int` range where the constructors bound the iterations: 1..3 for the diffusion minimax and 1..5 for the diffusion threshold (64 · 8^5 < 2^31).
- The strength factor is a positive rational `num/den`, not a `float`. Rounding of float division is not modelled.
- `toLowerCase` is modelled for ASCII letters only.
- OpenSpace.CalculateMove: the open-space constructor only raises the iteration count to at least 1. From about 10 iterations the diffusion values and the five-square scores pass `Integer.MAX_VALUE` and wrap in Java. The model's unbounded `MoveScore` and `CollectBest` do not wrap, so for such counts the model can choose a different move than the source.
- OpenSpace.ScorePossibleMove: for the same reason, the score is the unbounded sum and does not wrap around.
- Search.Minimax: the `fromComputerPerspective` argument of the evaluators is dropped, because neither source evaluator reads it.
- The dynamic strategy's `default` switch branch is left out, because `GamePhase` has only three values.
- MinMax.MinMaxStrategy.CalculateMove: `nodesEvaluated` is stated only as a lower bound (at least one node per root move, 0 for a single move), not as its exact count.
- MinMaxDiffusion.MinMaxDiffusionStrategy.CalculateMove: `nodesEvaluated` is stated only as a lower bound, as for the mobility search.
- Proportional.MinMaxProportionalStrategy.CalculateMove: the node count of the temporary search is discarded, as the source discards the strategy.
- Pieces.GetAllTransformations: the `HashSet` is a sequence without repeats under the source's equality. Its iteration order is not modelled.
