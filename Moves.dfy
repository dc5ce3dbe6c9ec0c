/**
 * Move generation shared by the computer strategies: `getAllTransformations` in its two
 * variants and `findAllPossibleMoves`, which every strategy class repeats verbatim.
 */
module Moves {
  import opened Options
  import opened Pieces
  import opened Boards
  import opened Games

  /** `ComputerStrategy.ComputerMove`: a piece in the orientation to place, and its anchor. */
  datatype ComputerMove = ComputerMove(piece: Piece, row: int, col: int)

  /**
   * Which `getAllTransformations` a strategy uses: the 20-entry list of the random and
   * open-space strategies, or the 8-entry list of the two minimax strategies.
   */
  datatype TransformStyle = TwentyWay | EightWay

  // ----- Orientation lists -----

  /** One round of the 20-entry list: `c`, its mirror, and three turns of the mirror. */
  function FiveOf(c: Piece): seq<Piece>
  {
    [c, Flipped(c), TurnedTimes(Flipped(c), 1), TurnedTimes(Flipped(c), 2), TurnedTimes(Flipped(c), 3)]
  }

  /** The 20-entry list: one round of five for each of the four turns of the piece. */
  function Twenty(p: Piece): seq<Piece>
  {
    seq(20, idx requires 0 <= idx < 20 => FiveOf(TurnedTimes(p, idx / 5))[idx % 5])
  }

  /** The 8-entry list: four turns, then four turns of the mirror. */
  function Eight(p: Piece): seq<Piece>
  {
    seq(8, k requires 0 <= k < 8 => Orientation(p, k))
  }

  function Transforms(p: Piece, style: TransformStyle): seq<Piece>
  {
    match style
    case TwentyWay => Twenty(p)
    case EightWay => Eight(p)
  }

  /** `getAllTransformations` of `ComputerStrategyRandom` and `ComputerStrategyOpenSpace`. */
  method GetAllTransformations20(p: Piece) returns (ts: seq<Piece>)
    ensures ts == Twenty(p)
  {
    ts := [];
    var current := p;
    var i := 0;
    while i < 4
      invariant 0 <= i <= 4
      invariant current == TurnedTimes(p, i)
      invariant ts == Twenty(p)[..5 * i]
    {
      ts := ts + [current];
      var flipped := Flip(current);
      ts := ts + [flipped];
      var j := 0;
      while j < 3
        invariant 0 <= j <= 3
        invariant flipped == TurnedTimes(Flipped(current), j)
        invariant ts == Twenty(p)[..5 * i + j + 2]
      {
        flipped := Rotate(flipped);
        ts := ts + [flipped];
        j := j + 1;
      }
      current := Rotate(current);
      i := i + 1;
    }
  }

  /** `getAllTransformations` of the two minimax strategies, without deduplication. */
  method GetAllTransformations8(p: Piece) returns (ts: seq<Piece>)
    ensures ts == Eight(p)
  {
    ts := [];
    var current := p;
    var i := 0;
    while i < 4
      invariant 0 <= i <= 4
      invariant current == TurnedTimes(p, i)
      invariant ts == Eight(p)[..i]
    {
      ts := ts + [current];
      current := Rotate(current);
      i := i + 1;
    }
    current := Flip(p);
    i := 0;
    while i < 4
      invariant 0 <= i <= 4
      invariant current == TurnedTimes(Flipped(p), i)
      invariant ts == Eight(p)[..4 + i]
    {
      ts := ts + [current];
      current := Rotate(current);
      i := i + 1;
    }
  }

  method GetAllTransformations(p: Piece, style: TransformStyle) returns (ts: seq<Piece>)
    ensures ts == Transforms(p, style)
  {
    match style
    case TwentyWay =>
      ts := GetAllTransformations20(p);
    case EightWay =>
      ts := GetAllTransformations8(p);
  }

  // ----- The enumeration, in the order of the four nested loops -----

  /** The placeable anchors `(row, 0) .. (row, n - 1)` for orientation `t`. */
  function RowMoves(b: BoardValue, t: Piece, row: int, n: nat): seq<ComputerMove>
    requires WellFormed(b)
  {
    if n == 0 then []
    else RowMoves(b, t, row, n - 1) + (if Placeable(b, t, row, n - 1) then [ComputerMove(t, row, n - 1)] else [])
  }

  /** The placeable anchors in rows `0 .. n - 1` for orientation `t`. */
  function GridMoves(b: BoardValue, t: Piece, n: nat): seq<ComputerMove>
    requires WellFormed(b)
  {
    if n == 0 then [] else GridMoves(b, t, n - 1) + RowMoves(b, t, n - 1, Size)
  }

  /** The placeable anchors of each orientation of `ts`, in turn. */
  function OrientMoves(b: BoardValue, ts: seq<Piece>): seq<ComputerMove>
    requires WellFormed(b)
  {
    if ts == [] then [] else OrientMoves(b, ts[..|ts| - 1]) + GridMoves(b, ts[|ts| - 1], Size)
  }

  /** The orientation list of each piece, for a given `getAllTransformations`. */
  function TransformsOf(style: TransformStyle): Piece -> seq<Piece>
  {
    p => Transforms(p, style)
  }

  /** The moves for each piece of `ps`, in turn, trying the orientations `tf` gives it. */
  function PiecesMoves(b: BoardValue, ps: seq<Piece>, tf: Piece -> seq<Piece>): seq<ComputerMove>
    requires WellFormed(b)
  {
    if ps == [] then []
    else PiecesMoves(b, ps[..|ps| - 1], tf) + OrientMoves(b, tf(ps[|ps| - 1]))
  }

  /** The list `findAllPossibleMoves` returns for a game state. */
  function Enumerate(g: GameValue, style: TransformStyle): seq<ComputerMove>
    requires WellFormed(g.board)
  {
    PiecesMoves(g.board, g.available, TransformsOf(style))
  }

  /** The two inner loops of `findAllPossibleMoves`: every anchor of the board, row by row. */
  method ScanBoard(board: Board, t: Piece) returns (moves: seq<ComputerMove>)
    requires board.Valid()
    ensures moves == GridMoves(board.value, t, Size)
  {
    moves := [];
    var row := 0;
    while row < Size
      invariant 0 <= row <= Size
      invariant moves == GridMoves(board.value, t, row)
    {
      ghost var beforeRow := moves;
      var col := 0;
      while col < Size
        invariant 0 <= col <= Size
        invariant moves == beforeRow + RowMoves(board.value, t, row, col)
      {
        var ok := board.CanPlaceAt(t, row, col);
        if ok {
          moves := moves + [ComputerMove(t, row, col)];
        }
        col := col + 1;
      }
      row := row + 1;
    }
  }

  /** The loop over the orientations of one piece. */
  method ScanOrientations(board: Board, ts: seq<Piece>) returns (moves: seq<ComputerMove>)
    requires board.Valid()
    ensures moves == OrientMoves(board.value, ts)
  {
    moves := [];
    var j := 0;
    while j < |ts|
      invariant 0 <= j <= |ts|
      invariant moves == OrientMoves(board.value, ts[..j])
    {
      var found := ScanBoard(board, ts[j]);
      moves := moves + found;
      assert ts[..j + 1][..j] == ts[..j];
      j := j + 1;
    }
    assert ts[..j] == ts;
  }

  /** `findAllPossibleMoves`: reads the state and changes nothing. */
  method FindAllPossibleMoves(state: GameState, style: TransformStyle) returns (moves: seq<ComputerMove>)
    requires state.Valid()
    ensures moves == Enumerate(state.Value(), style)
  {
    var ps := state.available;
    moves := [];
    var i := 0;
    while i < |ps|
      invariant 0 <= i <= |ps|
      invariant moves == PiecesMoves(state.board.value, ps[..i], TransformsOf(style))
    {
      var ts := GetAllTransformations(ps[i], style);
      var found := ScanOrientations(state.board, ts);
      moves := moves + found;
      assert ps[..i + 1][..i] == ps[..i];
      i := i + 1;
    }
    assert ps[..i] == ps;
  }

  /**
   * `GameState.makeComputerMove`, given the move the strategy answers: nothing happens once the
   * game is over, no move settles the game as `checkCurrentPlayerMoves` does, and otherwise
   * the move is played as `makeMove` plays it.
   */
  method MakeComputerMove(state: GameState, answer: Option<ComputerMove>) returns (ok: bool)
    requires state.Valid()
    modifies state, state.board, state.board.pieces, state.board.occupied
    ensures state.Valid()
    ensures old(state.status) != Playing ==> !ok && state.Value() == old(state.Value())
    ensures old(state.status) == Playing && answer.None? ==>
      !ok && state.Value() == AfterCurrentPlayerCheck(old(state.Value()))
    ensures old(state.status) == Playing && answer.Some? ==>
      ok == MoveAccepted(old(state.Value()), answer.value.piece, answer.value.row, answer.value.col) &&
      state.Value() == AfterMove(old(state.Value()), answer.value.piece, answer.value.row, answer.value.col)
  {
    if state.status != Playing {
      return false;
    }
    if answer.None? {
      state.CheckCurrentPlayerMoves();
      return false;
    }
    var move := answer.value;
    ok := state.MakeMove(move.piece, move.row, move.col);
  }

  // ----- Properties -----

  /** Every entry of either list has the type of the piece it came from. */
  lemma TransformsKeepKind(p: Piece, style: TransformStyle)
    ensures forall t :: t in Transforms(p, style) ==> t.kind == p.kind
  {
    forall n: nat ensures TurnedTimes(p, n).kind == p.kind && TurnedTimes(Flipped(p), n).kind == p.kind {
      TransformsAreEqual(p, n);
      TransformsAreEqual(Flipped(p), n);
    }
    forall idx | 0 <= idx < 20 ensures Twenty(p)[idx].kind == p.kind {
      var c := TurnedTimes(p, idx / 5);
      TransformsAreEqual(p, idx / 5);
      forall n: nat ensures TurnedTimes(Flipped(c), n).kind == p.kind {
        TransformsAreEqual(Flipped(c), n);
      }
    }
  }

  /** All eight orientations occur in the 20-entry list: the turns at 0, 5, 10, 15, the mirror's at 1 to 4. */
  lemma TwentyCoversEight(p: Piece, k: int)
    requires 0 <= k < 8
    ensures Orientation(p, k) in Twenty(p)
  {
    if k < 4 {
      assert Twenty(p)[5 * k] == Orientation(p, k);
    } else {
      assert Twenty(p)[k - 3] == FiveOf(p)[k - 3];
      assert Twenty(p)[k - 3] == Orientation(p, k);
    }
  }

  /** Every entry of the 20-entry list is one of the eight orientations. */
  lemma TwentyAreOrientations(p: Piece, idx: int)
    requires 0 <= idx < 20
    ensures exists k :: 0 <= k < 8 && Twenty(p)[idx] == Orientation(p, k)
  {
    var i, j := idx / 5, idx % 5;
    var c := TurnedTimes(p, i);
    assert Twenty(p)[idx] == FiveOf(c)[j];
    if j == 0 {
      assert Twenty(p)[idx] == Orientation(p, i);
    } else {
      assert FiveOf(c)[j] == TurnedTimes(Flipped(c), j - 1);
      FlipAfterTurns(p, i);
      TurnsAdd(Flipped(p), 3 * i, j - 1);
      TurnsModFour(Flipped(p), 3 * i + j - 1);
      var k := 4 + (3 * i + j - 1) % 4;
      assert Twenty(p)[idx] == Orientation(p, k);
    }
  }

  /** Either list, as a set, is exactly the eight orientations of the piece. */
  lemma TransformsAreOrientations(p: Piece, style: TransformStyle, t: Piece)
    ensures t in Transforms(p, style) <==> exists k :: 0 <= k < 8 && t == Orientation(p, k)
  {
    if t in Transforms(p, style) {
      if style == TwentyWay {
        var idx :| 0 <= idx < 20 && Twenty(p)[idx] == t;
        TwentyAreOrientations(p, idx);
      } else {
        var k :| 0 <= k < 8 && Eight(p)[k] == t;
      }
    }
    if exists k :: 0 <= k < 8 && t == Orientation(p, k) {
      var k :| 0 <= k < 8 && t == Orientation(p, k);
      if style == TwentyWay {
        TwentyCoversEight(p, k);
      } else {
        assert Eight(p)[k] == t;
      }
    }
  }

  lemma {:induction false} RowMovesMember(b: BoardValue, t: Piece, row: int, n: nat, m: ComputerMove)
    requires WellFormed(b)
    ensures m in RowMoves(b, t, row, n) <==> m.piece == t && m.row == row && 0 <= m.col < n && Placeable(b, t, row, m.col)
  {
    if n > 0 {
      RowMovesMember(b, t, row, n - 1, m);
    }
  }

  lemma {:induction false} GridMovesMember(b: BoardValue, t: Piece, n: nat, m: ComputerMove)
    requires WellFormed(b)
    ensures m in GridMoves(b, t, n) <==> m.piece == t && 0 <= m.row < n && 0 <= m.col < Size && Placeable(b, t, m.row, m.col)
  {
    if n > 0 {
      GridMovesMember(b, t, n - 1, m);
      RowMovesMember(b, t, n - 1, Size, m);
    }
  }

  lemma {:induction false} OrientMovesMember(b: BoardValue, ts: seq<Piece>, m: ComputerMove)
    requires WellFormed(b)
    ensures m in OrientMoves(b, ts) <==> m.piece in ts && 0 <= m.row < Size && 0 <= m.col < Size && Placeable(b, m.piece, m.row, m.col)
  {
    if ts != [] {
      var n := |ts|;
      var front, last := ts[..n - 1], ts[n - 1];
      OrientMovesMember(b, front, m);
      GridMovesMember(b, last, Size, m);
      InFrontOrLast(ts, m.piece);
      assert m in OrientMoves(b, ts) <==> m in OrientMoves(b, front) || m in GridMoves(b, last, Size);
    }
  }

  /** An element of a non-empty sequence is in its front or is its last element. */
  lemma InFrontOrLast<T>(s: seq<T>, x: T)
    requires |s| > 0
    ensures x in s <==> x in s[..|s| - 1] || x == s[|s| - 1]
  {
    assert s == s[..|s| - 1] + [s[|s| - 1]];
  }

  /** A move is on the list iff it puts a transformation of an available piece on the board legally. */
  predicate Candidate(b: BoardValue, ps: seq<Piece>, tf: Piece -> seq<Piece>, m: ComputerMove)
    requires WellFormed(b)
  {
    && (exists i :: 0 <= i < |ps| && m.piece in tf(ps[i]))
    && 0 <= m.row < Size && 0 <= m.col < Size
    && Placeable(b, m.piece, m.row, m.col)
  }

  lemma {:induction false} PiecesMovesMember(b: BoardValue, ps: seq<Piece>, tf: Piece -> seq<Piece>, m: ComputerMove)
    requires WellFormed(b)
    ensures m in PiecesMoves(b, ps, tf) <==> Candidate(b, ps, tf, m)
  {
    if ps != [] {
      var n := |ps|;
      var front := ps[..n - 1];
      PiecesMovesMember(b, front, tf, m);
      OrientMovesMember(b, tf(ps[n - 1]), m);
      if m in PiecesMoves(b, front, tf) {
        var i :| 0 <= i < |front| && m.piece in tf(front[i]);
        assert ps[i] == front[i];
      }
      if Candidate(b, ps, tf, m) {
        var i :| 0 <= i < |ps| && m.piece in tf(ps[i]);
        if i < n - 1 {
          assert front[i] == ps[i];
        }
      }
    }
  }

  /** The enumeration is sound and complete: its members are exactly the candidates. */
  lemma EnumerateMember(g: GameValue, style: TransformStyle, m: ComputerMove)
    requires WellFormed(g.board)
    ensures m in Enumerate(g, style) <==>
      && (exists i :: 0 <= i < |g.available| && m.piece in Transforms(g.available[i], style))
      && 0 <= m.row < Size && 0 <= m.col < Size
      && Placeable(g.board, m.piece, m.row, m.col)
  {
    PiecesMovesMember(g.board, g.available, TransformsOf(style), m);
    assert forall i :: 0 <= i < |g.available| ==> TransformsOf(style)(g.available[i]) == Transforms(g.available[i], style);
  }

  /**
   * Every enumerated move fits the board with its anchor on the board, its type is in the
   * inventory, and while the game is on `makeMove` accepts it.
   */
  lemma EnumeratedMoveLegal(g: GameValue, style: TransformStyle, m: ComputerMove)
    requires WellFormed(g.board)
    requires m in Enumerate(g, style)
    ensures Placeable(g.board, m.piece, m.row, m.col)
    ensures 0 <= m.row < Size && 0 <= m.col < Size
    ensures Contains(g.available, m.piece)
    ensures g.status == Playing ==> MoveAccepted(g, m.piece, m.row, m.col)
  {
    EnumerateMember(g, style, m);
    var i :| 0 <= i < |g.available| && m.piece in Transforms(g.available[i], style);
    TransformsKeepKind(g.available[i], style);
    assert Equals(g.available[i], m.piece);
  }

  /** The list is empty exactly when no available piece has a legal move (`hasLegalMoves`). */
  lemma EnumerateEmptyIffStuck(g: GameValue, style: TransformStyle)
    requires WellFormed(g.board)
    ensures Enumerate(g, style) == [] <==> !AnyLegalMove(g)
  {
    if Enumerate(g, style) != [] {
      var m := Enumerate(g, style)[0];
      EnumerateMember(g, style, m);
      var i :| 0 <= i < |g.available| && m.piece in Transforms(g.available[i], style);
      TransformsAreOrientations(g.available[i], style, m.piece);
      var k :| 0 <= k < 8 && m.piece == Orientation(g.available[i], k);
      assert LegalMoveExists(g.board, g.available[i]);
    }
    if AnyLegalMove(g) {
      var i :| 0 <= i < |g.available| && LegalMoveExists(g.board, g.available[i]);
      var r, c, k :| 0 <= r < Size && 0 <= c < Size && 0 <= k < 8 && Placeable(g.board, Orientation(g.available[i], k), r, c);
      var m := ComputerMove(Orientation(g.available[i], k), r, c);
      TransformsAreOrientations(g.available[i], style, m.piece);
      EnumerateMember(g, style, m);
    }
  }
}
