/** The 8x8 occupancy board: `Board.java`. */
module Boards {
  import opened Options
  import opened Pieces

  /** `Board.SIZE`. */
  const Size: int := 8

  /**
   * The contents of a board: the piece on each cell (`board`) and the parallel occupancy
   * flags (`occupied`), both indexed `[row][col]`.
   */
  datatype BoardValue = BoardValue(cells: seq<seq<Option<Piece>>>, occupied: seq<seq<bool>>)

  /** Both grids are 8 rows of 8 cells. */
  predicate WellFormed(b: BoardValue)
  {
    |b.cells| == Size && |b.occupied| == Size &&
    forall r :: 0 <= r < Size ==> |b.cells[r]| == Size && |b.occupied[r]| == Size
  }

  /** The invariant the two arrays keep: a cell is occupied exactly when it holds a piece. */
  predicate Consistent(b: BoardValue)
    requires WellFormed(b)
  {
    forall r, c :: 0 <= r < Size && 0 <= c < Size ==> (b.occupied[r][c] <==> b.cells[r][c].Some?)
  }

  /**
   * `isValidPosition`: a position is on the board exactly when the row-major cell index
   * it names is one of the 64 cells and its column does not spill into the next row.
   */
  predicate InBounds(row: int, col: int): (r: bool)
    ensures r <==> 0 <= col < Size && 0 <= row * Size + col < Size * Size
  {
    0 <= row < Size && 0 <= col < Size
  }

  /** `isOccupied` on a board value: a cell off the board counts as occupied. */
  predicate Occupied(b: BoardValue, row: int, col: int)
    requires WellFormed(b)
  {
    !InBounds(row, col) || b.occupied[row][col]
  }

  /** The board row that shape point `k` lands on when the piece is anchored at (r0, c0). */
  function RowOf(p: Piece, r0: int, k: int): int
    requires 0 <= k < |p.shape|
  {
    r0 + p.shape[k].y
  }

  /** The board column that shape point `k` lands on when the piece is anchored at (r0, c0). */
  function ColOf(p: Piece, c0: int, k: int): int
    requires 0 <= k < |p.shape|
  {
    c0 + p.shape[k].x
  }

  /** `canPlaceAt` on a board value: every cell of the footprint is on the board and free. */
  predicate Placeable(b: BoardValue, p: Piece, r0: int, c0: int)
    requires WellFormed(b)
  {
    forall k :: 0 <= k < |p.shape| ==> InBounds(RowOf(p, r0, k), ColOf(p, c0, k)) && !Occupied(b, RowOf(p, r0, k), ColOf(p, c0, k))
  }

  /** Every cell of the footprint is on the board. */
  predicate FootprintInBounds(p: Piece, r0: int, c0: int)
  {
    forall k :: 0 <= k < |p.shape| ==> InBounds(RowOf(p, r0, k), ColOf(p, c0, k))
  }

  /** One of the first `n` shape points lands on (row, col). */
  predicate CoversPrefix(p: Piece, r0: int, c0: int, n: int, row: int, col: int)
    requires n <= |p.shape|
  {
    exists k :: 0 <= k < n && RowOf(p, r0, k) == row && ColOf(p, c0, k) == col
  }

  /** The piece anchored at (r0, c0) covers (row, col). */
  predicate Covers(p: Piece, r0: int, c0: int, row: int, col: int)
  {
    CoversPrefix(p, r0, c0, |p.shape|, row, col)
  }

  /** The empty board a new `Board` starts with. */
  function EmptyBoard(): (b: BoardValue)
    ensures WellFormed(b) && Consistent(b)
  {
    BoardValue(seq(Size, r => seq(Size, c => None)), seq(Size, r => seq(Size, c => false)))
  }

  /** One array write in each grid. */
  function SetCell(b: BoardValue, row: int, col: int, v: Option<Piece>, occ: bool): (b': BoardValue)
    requires WellFormed(b) && InBounds(row, col)
    ensures WellFormed(b')
    ensures forall r, c :: 0 <= r < Size && 0 <= c < Size ==>
      b'.cells[r][c] == (if r == row && c == col then v else b.cells[r][c]) &&
      b'.occupied[r][c] == (if r == row && c == col then occ else b.occupied[r][c])
  {
    BoardValue(b.cells[row := b.cells[row][col := v]], b.occupied[row := b.occupied[row][col := occ]])
  }

  /** The board after the place loop of `placePiece` has written its first `n` cells. */
  function PlacePrefix(b: BoardValue, p: Piece, r0: int, c0: int, n: nat): (b': BoardValue)
    requires WellFormed(b) && n <= |p.shape| && FootprintInBounds(p, r0, c0)
    ensures WellFormed(b')
    decreases n
  {
    if n == 0 then b
    else SetCell(PlacePrefix(b, p, r0, c0, n - 1), RowOf(p, r0, n - 1), ColOf(p, c0, n - 1), Some(p), true)
  }

  /** The board after a successful `placePiece`. */
  function Placed(b: BoardValue, p: Piece, r0: int, c0: int): BoardValue
    requires WellFormed(b) && FootprintInBounds(p, r0, c0)
  {
    PlacePrefix(b, p, r0, c0, |p.shape|)
  }

  /** The board after the loop of `removePiece` has visited its first `n` shape points. */
  function RemovePrefix(b: BoardValue, p: Piece, r0: int, c0: int, n: nat): (b': BoardValue)
    requires WellFormed(b) && n <= |p.shape|
    ensures WellFormed(b')
    decreases n
  {
    if n == 0 then b
    else
      var prev := RemovePrefix(b, p, r0, c0, n - 1);
      if InBounds(RowOf(p, r0, n - 1), ColOf(p, c0, n - 1))
      then SetCell(prev, RowOf(p, r0, n - 1), ColOf(p, c0, n - 1), None, false)
      else prev
  }

  /** The board after `removePiece`. */
  function Removed(b: BoardValue, p: Piece, r0: int, c0: int): BoardValue
    requires WellFormed(b)
  {
    RemovePrefix(b, p, r0, c0, |p.shape|)
  }

  /** The eight orientations `hasLegalMove` tries: four turns, then the mirror and its three turns. */
  function Orientation(p: Piece, k: int): Piece
    requires 0 <= k < 8
  {
    if k < 4 then TurnedTimes(p, k) else TurnedTimes(Flipped(p), k - 4)
  }

  /** `hasLegalMove` on a board value: some anchor on the board and some orientation fit. */
  predicate LegalMoveExists(b: BoardValue, p: Piece)
    requires WellFormed(b)
  {
    exists r, c, k :: 0 <= r < Size && 0 <= c < Size && 0 <= k < 8 && Placeable(b, Orientation(p, k), r, c)
  }

  /** The number of `true` entries. */
  function CountTrue(s: seq<bool>): (n: nat)
    ensures n <= |s|
  {
    if s == [] then 0 else CountTrue(s[..|s| - 1]) + (if s[|s| - 1] then 1 else 0)
  }

  /** The number of occupied cells in the first `n` rows. */
  function CountRows(occ: seq<seq<bool>>, n: nat): (total: nat)
    requires n <= |occ| && forall r :: 0 <= r < n ==> |occ[r]| == Size
    ensures total <= n * Size
  {
    if n == 0 then 0 else CountRows(occ, n - 1) + CountTrue(occ[n - 1])
  }

  /** `getOccupiedSquareCount` on a board value. */
  function OccupiedCount(b: BoardValue): nat
    requires WellFormed(b)
  {
    CountRows(b.occupied, Size)
  }

  // ----- The Board object -----

  class Board {
    /** `board`: the piece on each cell, or null. */
    const pieces: array2<Option<Piece>>
    /** `occupied`: the occupancy flags. */
    const occupied: array2<bool>
    /** The contents the two arrays hold. */
    ghost var value: BoardValue

    ghost predicate Valid()
      reads this, pieces, occupied
    {
      pieces.Length0 == Size && pieces.Length1 == Size &&
      occupied.Length0 == Size && occupied.Length1 == Size &&
      WellFormed(value) && Consistent(value) &&
      forall r, c :: 0 <= r < Size && 0 <= c < Size ==>
        pieces[r, c] == value.cells[r][c] && occupied[r, c] == value.occupied[r][c]
    }

    /** `new Board()`: every cell empty. */
    constructor ()
      ensures Valid() && value == EmptyBoard()
      ensures fresh(pieces) && fresh(occupied)
    {
      pieces := new Option<Piece>[Size, Size]((r, c) => None);
      occupied := new bool[Size, Size]((r, c) => false);
      value := EmptyBoard();
    }

    /** `new Board(other)`: fresh arrays holding a row-by-row copy of the other board. */
    constructor Copy(other: Board)
      requires other.Valid()
      ensures Valid() && value == other.value
      ensures fresh(pieces) && fresh(occupied)
    {
      var ps := new Option<Piece>[Size, Size];
      var occ := new bool[Size, Size];
      var row := 0;
      while row < Size
        invariant 0 <= row <= Size
        invariant forall r, c :: 0 <= r < row && 0 <= c < Size ==>
          ps[r, c] == other.pieces[r, c] && occ[r, c] == other.occupied[r, c]
      {
        forall c | 0 <= c < Size {
          ps[row, c] := other.pieces[row, c];
        }
        forall c | 0 <= c < Size {
          occ[row, c] := other.occupied[row, c];
        }
        row := row + 1;
      }
      pieces := ps;
      occupied := occ;
      value := other.value;
    }

    /** `isOccupied`. */
    function IsOccupied(row: int, col: int): (b: bool)
      reads this, pieces, occupied
      requires Valid()
      ensures b == Occupied(value, row, col)
      ensures !InBounds(row, col) ==> b
    {
      if !InBounds(row, col) then true else occupied[row, col]
    }

    /** `getPiece`: null off the board. */
    function GetPiece(row: int, col: int): (v: Option<Piece>)
      reads this, pieces, occupied
      requires Valid()
      ensures v.Some? ==> InBounds(row, col) && IsOccupied(row, col)
      ensures InBounds(row, col) ==> v == value.cells[row][col]
    {
      if !InBounds(row, col) then None else pieces[row, col]
    }

    /** `canPlaceAt`: fails at the first footprint cell that is off the board or occupied. */
    method CanPlaceAt(p: Piece, r0: int, c0: int) returns (ok: bool)
      requires Valid()
      ensures ok == Placeable(value, p, r0, c0)
    {
      var k := 0;
      while k < |p.shape|
        invariant 0 <= k <= |p.shape|
        invariant forall j :: 0 <= j < k ==> InBounds(RowOf(p, r0, j), ColOf(p, c0, j)) && !Occupied(value, RowOf(p, r0, j), ColOf(p, c0, j))
      {
        var row := r0 + p.shape[k].y;
        var col := c0 + p.shape[k].x;
        assert row == RowOf(p, r0, k) && col == ColOf(p, c0, k);
        if !InBounds(row, col) || IsOccupied(row, col) {
          return false;
        }
        k := k + 1;
      }
      return true;
    }

    /**
     * `placePiece`: all or nothing. Its check loop is the one of `canPlaceAt`, which rejects a
     * footprint cell that is off the board or occupied; only then does the place loop write
     * every footprint cell.
     */
    method PlacePiece(p: Piece, r0: int, c0: int) returns (ok: bool)
      requires Valid()
      modifies this`value, pieces, occupied
      ensures Valid()
      ensures ok == Placeable(old(value), p, r0, c0)
      ensures ok ==> FootprintInBounds(p, r0, c0) && value == Placed(old(value), p, r0, c0)
      ensures !ok ==> value == old(value)
    {
      ok := CanPlaceAt(p, r0, c0);
      if !ok {
        return false;
      }
      WriteFootprint(p, r0, c0);
    }

    /** The place loop of `placePiece`, once the check loop has passed. */
    method WriteFootprint(p: Piece, r0: int, c0: int)
      requires Valid() && Placeable(value, p, r0, c0)
      modifies this`value, pieces, occupied
      ensures Valid() && FootprintInBounds(p, r0, c0)
      ensures value == Placed(old(value), p, r0, c0)
    {
      ghost var before := value;
      PlacedConsistent(before, p, r0, c0);
      var k := 0;
      while k < |p.shape|
        invariant 0 <= k <= |p.shape|
        invariant WellFormed(value) && value == PlacePrefix(before, p, r0, c0, k)
        invariant forall r, c :: 0 <= r < Size && 0 <= c < Size ==>
          pieces[r, c] == value.cells[r][c] && occupied[r, c] == value.occupied[r][c]
      {
        var row := r0 + p.shape[k].y;
        var col := c0 + p.shape[k].x;
        assert InBounds(RowOf(p, r0, k), ColOf(p, c0, k));
        pieces[row, col] := Some(p);
        occupied[row, col] := true;
        value := SetCell(value, row, col, Some(p), true);
        k := k + 1;
      }
    }

    /** `removePiece`: clears every footprint cell that is on the board. */
    method RemovePiece(p: Piece, r0: int, c0: int)
      requires Valid()
      modifies this`value, pieces, occupied
      ensures Valid()
      ensures value == Removed(old(value), p, r0, c0)
    {
      ghost var before := value;
      RemovedConsistent(before, p, r0, c0);
      var k := 0;
      while k < |p.shape|
        invariant 0 <= k <= |p.shape|
        invariant WellFormed(value) && value == RemovePrefix(before, p, r0, c0, k)
        invariant forall r, c :: 0 <= r < Size && 0 <= c < Size ==>
          pieces[r, c] == value.cells[r][c] && occupied[r, c] == value.occupied[r][c]
      {
        var row := r0 + p.shape[k].y;
        var col := c0 + p.shape[k].x;
        if InBounds(row, col) {
          pieces[row, col] := None;
          occupied[row, col] := false;
          value := SetCell(value, row, col, None, false);
        }
        k := k + 1;
      }
    }

    /**
     * `hasLegalMove`: for each anchor in row-major order, tries the piece as it is, its three
     * further turns, its mirror and the mirror's three turns.
     */
    method HasLegalMove(p: Piece) returns (found: bool)
      requires Valid()
      ensures found == LegalMoveExists(value, p)
    {
      var row := 0;
      while row < Size
        invariant 0 <= row <= Size
        invariant forall r, c, k :: 0 <= r < row && 0 <= c < Size && 0 <= k < 8 ==> !Placeable(value, Orientation(p, k), r, c)
      {
        var col := 0;
        while col < Size
          invariant 0 <= col <= Size
          invariant forall r, c, k :: 0 <= r < row && 0 <= c < Size && 0 <= k < 8 ==> !Placeable(value, Orientation(p, k), r, c)
          invariant forall c, k :: 0 <= c < col && 0 <= k < 8 ==> !Placeable(value, Orientation(p, k), row, c)
        {
          var fits := FitsAt(p, row, col);
          if fits {
            return true;
          }
          col := col + 1;
        }
        row := row + 1;
      }
      return false;
    }

    /** The eight orientation tests `hasLegalMove` makes at one anchor, in its order. */
    method FitsAt(p: Piece, row: int, col: int) returns (fits: bool)
      requires Valid()
      ensures fits == exists k :: 0 <= k < 8 && Placeable(value, Orientation(p, k), row, col)
    {
      fits := CanPlaceAt(p, row, col);
      assert Orientation(p, 0) == p;
      if fits {
        return true;
      }
      var rotated := p;
      var rotation := 0;
      while rotation < 3
        invariant 0 <= rotation <= 3
        invariant rotated == TurnedTimes(p, rotation)
        invariant forall k :: 0 <= k <= rotation ==> !Placeable(value, Orientation(p, k), row, col)
      {
        rotated := Rotate(rotated);
        assert rotated == Orientation(p, rotation + 1);
        fits := CanPlaceAt(rotated, row, col);
        if fits {
          return true;
        }
        rotation := rotation + 1;
      }
      var flipped := Flip(p);
      assert flipped == Orientation(p, 4);
      fits := CanPlaceAt(flipped, row, col);
      if fits {
        return true;
      }
      rotation := 0;
      while rotation < 3
        invariant 0 <= rotation <= 3
        invariant flipped == TurnedTimes(Flipped(p), rotation)
        invariant forall k :: 0 <= k <= 4 + rotation ==> !Placeable(value, Orientation(p, k), row, col)
      {
        flipped := Rotate(flipped);
        assert flipped == Orientation(p, 4 + rotation + 1);
        fits := CanPlaceAt(flipped, row, col);
        if fits {
          return true;
        }
        rotation := rotation + 1;
      }
      assert forall k :: 0 <= k < 8 ==> !Placeable(value, Orientation(p, k), row, col);
    }

    /** `getOccupiedSquareCount`: counts the occupied flags row by row. */
    method GetOccupiedSquareCount() returns (count: int)
      requires Valid()
      ensures count == OccupiedCount(value)
      ensures 0 <= count <= Size * Size
    {
      count := 0;
      var row := 0;
      while row < Size
        invariant 0 <= row <= Size
        invariant count == CountRows(value.occupied, row)
      {
        var col := 0;
        while col < Size
          invariant 0 <= col <= Size
          invariant count == CountRows(value.occupied, row) + CountTrue(value.occupied[row][..col])
        {
          assert value.occupied[row][..col + 1][..col] == value.occupied[row][..col];
          if occupied[row, col] {
            count := count + 1;
          }
          col := col + 1;
        }
        assert value.occupied[row][..Size] == value.occupied[row];
        row := row + 1;
      }
      OccupiedCountBounds(value);
    }

    /** `isFull`: 64 occupied cells, which happens exactly when every cell is occupied. */
    method IsFull() returns (full: bool)
      requires Valid()
      ensures full <==> OccupiedCount(value) == Size * Size
      ensures full <==> forall r, c :: 0 <= r < Size && 0 <= c < Size ==> value.occupied[r][c]
    {
      var count := GetOccupiedSquareCount();
      full := count == Size * Size;
      FullIffAllOccupied(value);
    }

    /** `clear`: fills both arrays, row by row, with null and false. */
    method Clear()
      requires Valid()
      modifies this`value, pieces, occupied
      ensures Valid() && value == EmptyBoard()
    {
      var row := 0;
      while row < Size
        invariant 0 <= row <= Size
        invariant forall r, c :: 0 <= r < row && 0 <= c < Size ==> pieces[r, c] == None && !occupied[r, c]
      {
        forall c | 0 <= c < Size {
          pieces[row, c] := None;
        }
        forall c | 0 <= c < Size {
          occupied[row, c] := false;
        }
        row := row + 1;
      }
      value := EmptyBoard();
    }
  }

  // ----- Properties of the board operations -----

  /** Two well-formed boards with the same cells are the same board. */
  lemma BoardExtensionality(a: BoardValue, b: BoardValue)
    requires WellFormed(a) && WellFormed(b)
    requires forall r, c :: 0 <= r < Size && 0 <= c < Size ==> a.cells[r][c] == b.cells[r][c] && a.occupied[r][c] == b.occupied[r][c]
    ensures a == b
  {
    forall r | 0 <= r < Size
      ensures a.cells[r] == b.cells[r] && a.occupied[r] == b.occupied[r]
    {
      assert forall c :: 0 <= c < Size ==> a.cells[r][c] == b.cells[r][c];
    }
  }

  /** A placement changes exactly its footprint: those cells hold the piece and are occupied. */
  lemma {:induction false} PlacePrefixCells(b: BoardValue, p: Piece, r0: int, c0: int, n: nat)
    requires WellFormed(b) && n <= |p.shape| && FootprintInBounds(p, r0, c0)
    ensures forall r, c :: 0 <= r < Size && 0 <= c < Size ==>
      PlacePrefix(b, p, r0, c0, n).cells[r][c] == (if CoversPrefix(p, r0, c0, n, r, c) then Some(p) else b.cells[r][c]) &&
      PlacePrefix(b, p, r0, c0, n).occupied[r][c] == (CoversPrefix(p, r0, c0, n, r, c) || b.occupied[r][c])
  {
    if n > 0 {
      PlacePrefixCells(b, p, r0, c0, n - 1);
      forall r, c | 0 <= r < Size && 0 <= c < Size
        ensures CoversPrefix(p, r0, c0, n, r, c) <==>
          CoversPrefix(p, r0, c0, n - 1, r, c) || (RowOf(p, r0, n - 1) == r && ColOf(p, c0, n - 1) == c)
      {
        if CoversPrefix(p, r0, c0, n, r, c) {
          var k :| 0 <= k < n && RowOf(p, r0, k) == r && ColOf(p, c0, k) == c;
          if k < n - 1 {
            assert CoversPrefix(p, r0, c0, n - 1, r, c);
          }
        }
      }
    }
  }

  /** A removal clears exactly the on-board cells of its footprint. */
  lemma {:induction false} RemovePrefixCells(b: BoardValue, p: Piece, r0: int, c0: int, n: nat)
    requires WellFormed(b) && n <= |p.shape|
    ensures forall r, c :: 0 <= r < Size && 0 <= c < Size ==>
      RemovePrefix(b, p, r0, c0, n).cells[r][c] == (if CoversPrefix(p, r0, c0, n, r, c) then None else b.cells[r][c]) &&
      RemovePrefix(b, p, r0, c0, n).occupied[r][c] == (!CoversPrefix(p, r0, c0, n, r, c) && b.occupied[r][c])
  {
    if n > 0 {
      RemovePrefixCells(b, p, r0, c0, n - 1);
      forall r, c | 0 <= r < Size && 0 <= c < Size
        ensures CoversPrefix(p, r0, c0, n, r, c) <==>
          CoversPrefix(p, r0, c0, n - 1, r, c) || (RowOf(p, r0, n - 1) == r && ColOf(p, c0, n - 1) == c)
      {
        if CoversPrefix(p, r0, c0, n, r, c) {
          var k :| 0 <= k < n && RowOf(p, r0, k) == r && ColOf(p, c0, k) == c;
          if k < n - 1 {
            assert CoversPrefix(p, r0, c0, n - 1, r, c);
          }
        }
      }
    }
  }

  /** A legal placement keeps the occupied-iff-holds-a-piece invariant. */
  lemma PlacedConsistent(b: BoardValue, p: Piece, r0: int, c0: int)
    requires WellFormed(b) && Consistent(b) && Placeable(b, p, r0, c0)
    ensures FootprintInBounds(p, r0, c0)
    ensures Consistent(Placed(b, p, r0, c0))
  {
    PlacePrefixCells(b, p, r0, c0, |p.shape|);
  }

  /** A removal keeps the occupied-iff-holds-a-piece invariant. */
  lemma RemovedConsistent(b: BoardValue, p: Piece, r0: int, c0: int)
    requires WellFormed(b) && Consistent(b)
    ensures Consistent(Removed(b, p, r0, c0))
  {
    RemovePrefixCells(b, p, r0, c0, |p.shape|);
  }

  /** Removing a piece right after placing it restores the board exactly. */
  lemma RemoveUndoesPlace(b: BoardValue, p: Piece, r0: int, c0: int)
    requires WellFormed(b) && Consistent(b) && Placeable(b, p, r0, c0)
    ensures FootprintInBounds(p, r0, c0)
    ensures Removed(Placed(b, p, r0, c0), p, r0, c0) == b
  {
    var b1 := Placed(b, p, r0, c0);
    PlacePrefixCells(b, p, r0, c0, |p.shape|);
    RemovePrefixCells(b1, p, r0, c0, |p.shape|);
    forall r, c | 0 <= r < Size && 0 <= c < Size && Covers(p, r0, c0, r, c)
      ensures !b.occupied[r][c] && b.cells[r][c] == None
    {
      var k :| 0 <= k < |p.shape| && RowOf(p, r0, k) == r && ColOf(p, c0, k) == c;
    }
    BoardExtensionality(Removed(b1, p, r0, c0), b);
  }

  /** Counting a row prefix by prefix. */
  lemma {:induction false} CountTrueAll(s: seq<bool>)
    ensures CountTrue(s) == |s| <==> forall j :: 0 <= j < |s| ==> s[j]
  {
    if s != [] {
      CountTrueAll(s[..|s| - 1]);
      assert forall j :: 0 <= j < |s| - 1 ==> s[..|s| - 1][j] == s[j];
    }
  }

  /** The occupied count is at most 64, and equals 64 exactly when every cell is occupied. */
  lemma {:induction false} CountRowsAll(occ: seq<seq<bool>>, n: nat)
    requires n <= |occ| && forall r :: 0 <= r < |occ| ==> |occ[r]| == Size
    ensures CountRows(occ, n) <= n * Size
    ensures CountRows(occ, n) == n * Size <==> forall r, c :: 0 <= r < n && 0 <= c < Size ==> occ[r][c]
  {
    if n > 0 {
      CountRowsAll(occ, n - 1);
      CountTrueAll(occ[n - 1]);
    }
  }

  lemma {:induction false} CountTrueNone(s: seq<bool>)
    ensures CountTrue(s) == 0 <==> forall j :: 0 <= j < |s| ==> !s[j]
  {
    if s != [] {
      CountTrueNone(s[..|s| - 1]);
      assert forall j :: 0 <= j < |s| - 1 ==> s[..|s| - 1][j] == s[j];
    }
  }

  lemma {:induction false} CountRowsNone(occ: seq<seq<bool>>, n: nat)
    requires n <= |occ| && forall r :: 0 <= r < |occ| ==> |occ[r]| == Size
    ensures CountRows(occ, n) == 0 <==> forall r, c :: 0 <= r < n && 0 <= c < Size ==> !occ[r][c]
  {
    if n > 0 {
      CountRowsNone(occ, n - 1);
      CountTrueNone(occ[n - 1]);
    }
  }

  /** The count is 0 exactly when no cell is occupied; so `clear` leaves it 0. */
  lemma EmptyIffNoneOccupied(b: BoardValue)
    requires WellFormed(b)
    ensures OccupiedCount(b) == 0 <==> forall r, c :: 0 <= r < Size && 0 <= c < Size ==> !b.occupied[r][c]
    ensures OccupiedCount(EmptyBoard()) == 0
  {
    CountRowsNone(b.occupied, Size);
    CountRowsNone(EmptyBoard().occupied, Size);
  }

  lemma {:induction false} CountTrueMonotone(s: seq<bool>, t: seq<bool>)
    requires |s| == |t| && forall j :: 0 <= j < |s| && s[j] ==> t[j]
    ensures CountTrue(s) <= CountTrue(t)
  {
    if s != [] {
      CountTrueMonotone(s[..|s| - 1], t[..|t| - 1]);
    }
  }

  lemma {:induction false} CountRowsMonotone(a: seq<seq<bool>>, b: seq<seq<bool>>, n: nat)
    requires n <= |a| && n <= |b|
    requires forall r :: 0 <= r < n ==> |a[r]| == Size && |b[r]| == Size
    requires forall r, c :: 0 <= r < n && 0 <= c < Size && a[r][c] ==> b[r][c]
    ensures CountRows(a, n) <= CountRows(b, n)
  {
    if n > 0 {
      CountRowsMonotone(a, b, n - 1);
      CountTrueMonotone(a[n - 1], b[n - 1]);
    }
  }

  /** Every cell occupied on `a` is occupied on `b`. */
  predicate OccupiesAtLeast(b: BoardValue, a: BoardValue)
    requires WellFormed(a) && WellFormed(b)
  {
    forall r, c :: 0 <= r < Size && 0 <= c < Size && a.occupied[r][c] ==> b.occupied[r][c]
  }

  /** A board that occupies at least the cells of another has at least its occupied count. */
  lemma OccupiedCountMonotone(a: BoardValue, b: BoardValue)
    requires WellFormed(a) && WellFormed(b) && OccupiesAtLeast(b, a)
    ensures OccupiedCount(a) <= OccupiedCount(b)
  {
    CountRowsMonotone(a.occupied, b.occupied, Size);
  }

  /** Placing a piece only adds occupied cells. */
  lemma PlacedOccupiesAtLeast(b: BoardValue, p: Piece, r0: int, c0: int)
    requires WellFormed(b) && FootprintInBounds(p, r0, c0)
    ensures OccupiesAtLeast(Placed(b, p, r0, c0), b)
  {
    PlacePrefixCells(b, p, r0, c0, |p.shape|);
  }

  lemma OccupiedCountBounds(b: BoardValue)
    requires WellFormed(b)
    ensures 0 <= OccupiedCount(b) <= Size * Size
  {
    CountRowsAll(b.occupied, Size);
  }

  lemma FullIffAllOccupied(b: BoardValue)
    requires WellFormed(b)
    ensures OccupiedCount(b) == Size * Size <==> forall r, c :: 0 <= r < Size && 0 <= c < Size ==> b.occupied[r][c]
  {
    CountRowsAll(b.occupied, Size);
  }
}
