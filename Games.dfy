/** The turn and inventory state machine: `GameState.java`. */
module Games {
  import opened Options
  import opened Pieces
  import opened Boards

  datatype Player = Player1 | Player2

  datatype GameStatus = Playing | Player1Wins | Player2Wins | Draw

  /** `GameState.Move`: who placed which piece (in the orientation placed) at which anchor. */
  datatype Move = Move(player: Player, piece: Piece, row: int, col: int)

  /** The contents of a `GameState`: its board, inventory, turn, status, winner and history. */
  datatype GameValue = GameValue(
    board: BoardValue,
    available: seq<Piece>,
    current: Player,
    status: GameStatus,
    winner: Option<Player>,
    history: seq<Move>)

  function Other(p: Player): Player
  {
    if p == Player1 then Player2 else Player1
  }

  /** The status announcing that `p` has won. */
  function WinFor(p: Player): GameStatus
  {
    if p == Player1 then Player1Wins else Player2Wins
  }

  /** `List.contains` under `PentominoPiece.equals`: some entry has the piece's type. */
  predicate Contains(ps: seq<Piece>, p: Piece)
  {
    exists i :: 0 <= i < |ps| && Equals(ps[i], p)
  }

  /** `List.remove(Object)` under `PentominoPiece.equals`: drops the first entry of the piece's type. */
  function RemoveFirst(ps: seq<Piece>, p: Piece): (r: seq<Piece>)
    ensures |r| == if Contains(ps, p) then |ps| - 1 else |ps|
  {
    if ps == [] then []
    else if Equals(ps[0], p) then ps[1..]
    else
      assert forall i :: 1 <= i < |ps| ==> ps[1..][i - 1] == ps[i];
      [ps[0]] + RemoveFirst(ps[1..], p)
  }

  /** The types of a sequence of pieces, in order. */
  function KindsOf(ps: seq<Piece>): seq<PieceType>
  {
    seq(|ps|, i requires 0 <= i < |ps| => ps[i].kind)
  }

  /** The types of the pieces placed by a history, in order. */
  function PlacedKinds(h: seq<Move>): seq<PieceType>
  {
    seq(|h|, i requires 0 <= i < |h| => h[i].piece.kind)
  }

  /** The state of a new `GameState` or one after `reset`. */
  function Initial(): (g: GameValue)
    ensures WellFormed(g.board) && Consistent(g.board)
  {
    GameValue(EmptyBoard(), AllPieces(), Player1, Playing, None, [])
  }

  /** `hasLegalMoves`: some available piece has a legal move on the board. */
  predicate AnyLegalMove(g: GameValue)
    requires WellFormed(g.board)
  {
    exists i :: 0 <= i < |g.available| && LegalMoveExists(g.board, g.available[i])
  }

  /** `checkGameEnd`: the player to move loses when stuck; otherwise an empty inventory is a draw. */
  function AfterGameEndCheck(g: GameValue): GameValue
    requires WellFormed(g.board)
  {
    if !AnyLegalMove(g) then g.(winner := Some(Other(g.current)), status := WinFor(Other(g.current)))
    else if |g.available| == 0 then g.(status := Draw)
    else g
  }

  /** The three conditions under which `makeMove` goes ahead. */
  predicate MoveAccepted(g: GameValue, p: Piece, row: int, col: int)
    requires WellFormed(g.board)
  {
    g.status == Playing && Contains(g.available, p) && Placeable(g.board, p, row, col)
  }

  /** An accepted move before the end-of-game check: placed, removed, recorded, turn passed. */
  function Moved(g: GameValue, p: Piece, row: int, col: int): (g': GameValue)
    requires WellFormed(g.board) && MoveAccepted(g, p, row, col)
    ensures WellFormed(g'.board)
  {
    GameValue(
      Placed(g.board, p, row, col),
      RemoveFirst(g.available, p),
      Other(g.current),
      g.status,
      g.winner,
      g.history + [Move(g.current, p, row, col)])
  }

  /** The state after `makeMove(p, row, col)`. */
  function AfterMove(g: GameValue, p: Piece, row: int, col: int): (g': GameValue)
    requires WellFormed(g.board)
    ensures WellFormed(g'.board)
  {
    if !MoveAccepted(g, p, row, col) then g
    else AfterGameEndCheck(Moved(g, p, row, col))
  }

  /** The state after `undoLastMove`. */
  function AfterUndo(g: GameValue): (g': GameValue)
    requires WellFormed(g.board)
    ensures WellFormed(g'.board)
  {
    if g.history == [] then g
    else
      var last := g.history[|g.history| - 1];
      GameValue(
        Removed(g.board, last.piece, last.row, last.col),
        g.available + [last.piece],
        last.player,
        Playing,
        None,
        g.history[..|g.history| - 1])
  }

  /** The state after `checkCurrentPlayerMoves`. */
  function AfterCurrentPlayerCheck(g: GameValue): GameValue
    requires WellFormed(g.board)
  {
    if g.status != Playing then g
    else if !AnyLegalMove(g) then g.(winner := Some(Other(g.current)), status := WinFor(Other(g.current)))
    else g
  }

  /**
   * Every piece type is either still available or placed by a move of the history, exactly
   * once between them: what `makeMove`, `undoLastMove`, `updatePiece` and `reset` maintain.
   */
  predicate Partitioned(g: GameValue)
  {
    multiset(KindsOf(g.available)) + multiset(PlacedKinds(g.history)) == multiset(KindsOf(AllPieces()))
  }

  /** No two available pieces have the same type. */
  predicate DistinctKinds(ps: seq<Piece>)
  {
    forall i, j :: 0 <= i < j < |ps| ==> ps[i].kind != ps[j].kind
  }

  /** The state after `updatePiece(index, p)`. */
  function AfterUpdate(g: GameValue, index: int, p: Piece): GameValue
  {
    if 0 <= index < |g.available| && g.available[index].kind == p.kind
    then g.(available := g.available[index := p])
    else g
  }

  // ----- The GameState object -----

  class GameState {
    const board: Board
    var available: seq<Piece>
    var current: Player
    var status: GameStatus
    var winner: Option<Player>
    var history: seq<Move>

    ghost predicate Valid()
      reads this, board, board.pieces, board.occupied
    {
      board.Valid() && Partitioned(Value())
    }

    /** The whole state as a value. */
    ghost function Value(): GameValue
      reads this, board
    {
      GameValue(board.value, available, current, status, winner, history)
    }

    /** `new GameState()`: an empty board, all twelve pieces, player 1 to move. */
    constructor ()
      ensures Valid() && Value() == Initial()
      ensures fresh(board) && fresh(board.pieces) && fresh(board.occupied)
    {
      board := new Board();
      available := AllPieces();
      current := Player1;
      status := Playing;
      winner := None;
      history := [];
      InitialPartitioned();
    }

    /** `new GameState(other)`: a copy with its own board arrays. */
    constructor Copy(other: GameState)
      requires other.Valid()
      ensures Valid() && Value() == other.Value()
      ensures fresh(board) && fresh(board.pieces) && fresh(board.occupied)
    {
      board := new Board.Copy(other.board);
      available := other.available;
      current := other.current;
      status := other.status;
      winner := other.winner;
      history := other.history;
    }

    /** `getMoveCount`. */
    function GetMoveCount(): (n: nat)
      reads this
      ensures n == |Value().history|
    {
      |history|
    }

    /** `updatePiece`: replaces entry `index` only when it exists and has the same type. */
    method UpdatePiece(index: int, p: Piece)
      requires Valid()
      modifies this
      ensures Valid()
      ensures Value() == AfterUpdate(old(Value()), index, p)
    {
      UpdatePartitioned(Value(), index, p);
      if 0 <= index < |available| {
        var oldPiece := available[index];
        if oldPiece.kind == p.kind {
          available := available[index := p];
        }
      }
    }

    /** `hasLegalMoves`: asks the board about each available piece in turn. */
    method HasLegalMoves() returns (any: bool)
      requires Valid()
      ensures any == AnyLegalMove(Value())
    {
      var i := 0;
      while i < |available|
        invariant 0 <= i <= |available|
        invariant forall j :: 0 <= j < i ==> !LegalMoveExists(board.value, available[j])
      {
        var fits := board.HasLegalMove(available[i]);
        if fits {
          return true;
        }
        i := i + 1;
      }
      return false;
    }

    /** `checkGameEnd`. */
    method CheckGameEnd()
      requires Valid()
      modifies this
      ensures Valid()
      ensures Value() == AfterGameEndCheck(old(Value()))
    {
      var any := HasLegalMoves();
      if !any {
        winner := Some(Other(current));
      }
      // The draw arm is unreachable (see `DrawUnreachable`), so it is kept inside one expression.
      status := if !any then WinFor(Other(current)) else if |available| == 0 then Draw else status;
    }

    /**
     * `makeMove`: refuses when the game is over, when no available piece has the type, or
     * when the board refuses the placement; otherwise records the move, passes the turn and
     * checks for the end of the game.
     */
    method MakeMove(p: Piece, row: int, col: int) returns (ok: bool)
      requires Valid()
      modifies this, board, board.pieces, board.occupied
      ensures Valid()
      ensures ok == MoveAccepted(old(Value()), p, row, col)
      ensures Value() == AfterMove(old(Value()), p, row, col)
    {
      if status != Playing {
        return false;
      }
      if !Contains(available, p) {
        return false;
      }
      ghost var before := Value();
      ok := board.PlacePiece(p, row, col);
      if !ok {
        return false;
      }
      MovedPartitioned(before, p, row, col);
      available := RemoveFirst(available, p);
      history := history + [Move(current, p, row, col)];
      current := Other(current);
      CheckGameEnd();
    }

    /** `undoLastMove`: takes back the last move, whatever the status. */
    method UndoLastMove() returns (ok: bool)
      requires Valid()
      modifies this, board, board.pieces, board.occupied
      ensures Valid()
      ensures ok == (old(history) != [])
      ensures Value() == AfterUndo(old(Value()))
    {
      if history == [] {
        return false;
      }
      ghost var before := Value();
      UndoPartitioned(before);
      var last := history[|history| - 1];
      history := history[..|history| - 1];
      available := available + [last.piece];
      board.RemovePiece(last.piece, last.row, last.col);
      current := last.player;
      status := Playing;
      winner := None;
      assert Value() == AfterUndo(before);
      return true;
    }

    /** `checkCurrentPlayerMoves`. */
    method CheckCurrentPlayerMoves()
      requires Valid()
      modifies this
      ensures Valid()
      ensures Value() == AfterCurrentPlayerCheck(old(Value()))
    {
      if status != Playing {
        return;
      }
      var any := HasLegalMoves();
      if !any {
        winner := Some(Other(current));
        status := WinFor(Other(current));
      }
    }

    /** `reset`: clears the board and restores the initial inventory and turn. */
    method Reset()
      requires Valid()
      modifies this, board, board.pieces, board.occupied
      ensures Valid()
      ensures Value() == Initial()
    {
      board.Clear();
      available := AllPieces();
      current := Player1;
      status := Playing;
      winner := None;
      history := [];
      InitialPartitioned();
    }
  }

  // ----- Properties -----

  lemma KindsOfAppend(a: seq<Piece>, b: seq<Piece>)
    ensures KindsOf(a + b) == KindsOf(a) + KindsOf(b)
  {
  }

  /** `RemoveFirst` takes away exactly one piece of the given type, or nothing when there is none. */
  lemma {:induction false} RemoveFirstKinds(ps: seq<Piece>, p: Piece)
    ensures Contains(ps, p) ==> multiset(KindsOf(RemoveFirst(ps, p))) + multiset{p.kind} == multiset(KindsOf(ps))
    ensures !Contains(ps, p) ==> RemoveFirst(ps, p) == ps
  {
    if ps == [] {
    } else {
      assert ps == [ps[0]] + ps[1..];
      KindsOfAppend([ps[0]], ps[1..]);
      if Equals(ps[0], p) {
      } else {
        RemoveFirstKinds(ps[1..], p);
        KindsOfAppend([ps[0]], RemoveFirst(ps[1..], p));
        if Contains(ps, p) {
          var i :| 0 <= i < |ps| && Equals(ps[i], p);
          assert Equals(ps[1..][i - 1], p);
        }
      }
    }
  }

  /** `checkGameEnd` never announces a draw: an empty inventory leaves no legal move. */
  lemma DrawUnreachable(g: GameValue)
    requires WellFormed(g.board)
    ensures AfterGameEndCheck(g).status == Draw ==> g.status == Draw
    ensures |g.available| == 0 ==> AfterGameEndCheck(g).status == WinFor(Other(g.current))
  {
  }

  /** A game that is not drawn is never drawn by a move. */
  lemma MoveNeverDraws(g: GameValue, p: Piece, row: int, col: int)
    requires WellFormed(g.board)
    requires g.status != Draw
    ensures AfterMove(g, p, row, col).status != Draw
  {
    if MoveAccepted(g, p, row, col) {
      DrawUnreachable(Moved(g, p, row, col));
    }
  }

  /**
   * What an accepted move does: the piece occupies its footprint, one piece of its type leaves
   * the inventory, the move is appended to the history and the turn passes; the game goes on
   * exactly when the next player has a move, and otherwise the player who moved has won.
   */
  lemma MoveOutcome(g: GameValue, p: Piece, row: int, col: int)
    requires WellFormed(g.board)
    requires MoveAccepted(g, p, row, col)
    ensures var g' := AfterMove(g, p, row, col);
      && g'.board == Placed(g.board, p, row, col)
      && multiset(KindsOf(g'.available)) + multiset{p.kind} == multiset(KindsOf(g.available))
      && g'.history == g.history + [Move(g.current, p, row, col)]
      && g'.current == Other(g.current)
      && (g'.status == Playing <==> AnyLegalMove(g'))
      && (g'.status != Playing ==> g'.status == WinFor(g.current) && g'.winner == Some(g.current))
  {
    RemoveFirstKinds(g.available, p);
  }

  /** A refused move changes nothing. */
  lemma RefusedMoveUnchanged(g: GameValue, p: Piece, row: int, col: int)
    requires WellFormed(g.board)
    requires !MoveAccepted(g, p, row, col)
    ensures AfterMove(g, p, row, col) == g
  {
  }

  /**
   * Undoing an accepted move restores the board, the turn, the history and the inventory (as a
   * multiset of types: the piece comes back at the end, in the orientation it was placed).
   */
  lemma UndoAfterMove(g: GameValue, p: Piece, row: int, col: int)
    requires WellFormed(g.board) && Consistent(g.board)
    requires MoveAccepted(g, p, row, col)
    ensures var u := AfterUndo(AfterMove(g, p, row, col));
      && u.board == g.board
      && u.current == g.current
      && u.history == g.history
      && u.status == Playing && u.winner == None
      && multiset(KindsOf(u.available)) == multiset(KindsOf(g.available))
  {
    var g' := AfterMove(g, p, row, col);
    RemoveFirstKinds(g.available, p);
    RemoveUndoesPlace(g.board, p, row, col);
    assert g'.history[..|g'.history| - 1] == g.history;
    KindsOfAppend(g'.available, [p]);
  }

  lemma InitialPartitioned()
    ensures Partitioned(Initial())
  {
    assert PlacedKinds([]) == [];
  }

  lemma MovedPartitioned(g: GameValue, p: Piece, row: int, col: int)
    requires WellFormed(g.board) && Partitioned(g)
    requires MoveAccepted(g, p, row, col)
    ensures Partitioned(Moved(g, p, row, col))
  {
    RemoveFirstKinds(g.available, p);
    var h := g.history + [Move(g.current, p, row, col)];
    assert PlacedKinds(h) == PlacedKinds(g.history) + [p.kind];
  }

  /** `makeMove` keeps every type either available or placed, exactly once. */
  lemma MovePartitioned(g: GameValue, p: Piece, row: int, col: int)
    requires WellFormed(g.board) && Partitioned(g)
    ensures Partitioned(AfterMove(g, p, row, col))
  {
    if MoveAccepted(g, p, row, col) {
      MovedPartitioned(g, p, row, col);
    }
  }

  /** `undoLastMove` keeps every type either available or placed, exactly once. */
  lemma UndoPartitioned(g: GameValue)
    requires WellFormed(g.board) && Partitioned(g)
    ensures Partitioned(AfterUndo(g))
  {
    if g.history != [] {
      var n := |g.history|;
      assert g.history == g.history[..n - 1] + [g.history[n - 1]];
      assert PlacedKinds(g.history) == PlacedKinds(g.history[..n - 1]) + [g.history[n - 1].piece.kind];
      KindsOfAppend(g.available, [g.history[n - 1].piece]);
    }
  }

  /** `updatePiece` keeps every type either available or placed, exactly once. */
  lemma UpdatePartitioned(g: GameValue, index: int, p: Piece)
    requires Partitioned(g)
    ensures Partitioned(AfterUpdate(g, index, p))
  {
    if 0 <= index < |g.available| && g.available[index].kind == p.kind {
      assert KindsOf(g.available[index := p]) == KindsOf(g.available);
    }
  }

  lemma TwoOccurrences<T>(s: seq<T>, i: int, j: int)
    requires 0 <= i < j < |s|
    ensures s[i] == s[j] ==> multiset(s)[s[i]] >= 2
  {
    assert s == s[..j] + s[j..];
    assert s[i] in s[..j];
    assert s[j] in s[j..];
  }

  lemma {:induction false} AtMostOnce<T>(s: seq<T>)
    requires forall i, j :: 0 <= i < j < |s| ==> s[i] != s[j]
    ensures forall x :: multiset(s)[x] <= 1
  {
    if s != [] {
      var n := |s|;
      AtMostOnce(s[..n - 1]);
      assert s == s[..n - 1] + [s[n - 1]];
      assert s[n - 1] !in s[..n - 1];
    }
  }

  /**
   * In a partitioned state the inventory and the history hold twelve pieces between them, and
   * no type is available twice.
   */
  lemma PartitionBounds(g: GameValue)
    requires Partitioned(g)
    ensures |g.available| + |g.history| == 12
    ensures DistinctKinds(g.available)
  {
    var all := AllPieces();
    assert |multiset(KindsOf(all))| == 12;
    assert |multiset(KindsOf(g.available))| == |g.available|;
    assert |multiset(PlacedKinds(g.history))| == |g.history|;
    AtMostOnce(KindsOf(all));
    forall i, j | 0 <= i < j < |g.available|
      ensures g.available[i].kind != g.available[j].kind
    {
      var ks := KindsOf(g.available);
      TwoOccurrences(ks, i, j);
      assert multiset(ks)[ks[i]] <= multiset(KindsOf(all))[ks[i]] <= 1;
    }
  }
}
