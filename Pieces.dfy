/** The twelve pentominoes and their shape transformations: `PentominoPiece.java`. */
module Pieces {
  import Points

  type Point = Points.Point

  datatype PieceType = I | L | P | N | T | U | V | W | X | Z | F | Y

  /** An RGB colour, carried along unchanged by every transformation. */
  datatype Color = Color(red: int, green: int, blue: int)

  /** An immutable piece: its type, colour, the cells it covers relative to its anchor, and its name. */
  datatype Piece = Piece(kind: PieceType, color: Color, shape: seq<Point>, name: string)

  // ----- Specification of the shape transformations -----

  /** Every point of the shape turned a quarter. */
  function TurnShape(s: seq<Point>): seq<Point>
  {
    seq(|s|, k requires 0 <= k < |s| => Points.QuarterTurn(s[k]))
  }

  /** Every point of the shape mirrored. */
  function FlipShape(s: seq<Point>): seq<Point>
  {
    seq(|s|, k requires 0 <= k < |s| => Points.Flip(s[k]))
  }

  /** Every point of the shape moved by (-dx, -dy). */
  function ShiftShape(s: seq<Point>, dx: int, dy: int): seq<Point>
  {
    seq(|s|, k requires 0 <= k < |s| => Points.Point(s[k].x - dx, s[k].y - dy))
  }

  /** What `rotate()` returns. */
  function Turned(p: Piece): Piece
  {
    p.(shape := TurnShape(p.shape))
  }

  /** What `flip()` returns. */
  function Flipped(p: Piece): Piece
  {
    p.(shape := FlipShape(p.shape))
  }

  /** `n` successive calls of `rotate()`. */
  function TurnedTimes(p: Piece, n: nat): Piece
  {
    if n == 0 then p else Turned(TurnedTimes(p, n - 1))
  }

  /** The x coordinates of a shape, in order. */
  function Xs(s: seq<Point>): seq<int>
  {
    seq(|s|, k requires 0 <= k < |s| => s[k].x)
  }

  /** The y coordinates of a shape, in order. */
  function Ys(s: seq<Point>): seq<int>
  {
    seq(|s|, k requires 0 <= k < |s| => s[k].y)
  }

  /** The stream minimum with `orElse(0)`: the least element, or 0 for an empty sequence. */
  function Minimum(xs: seq<int>): (m: int)
    ensures forall k :: 0 <= k < |xs| ==> m <= xs[k]
    ensures xs != [] ==> exists k :: 0 <= k < |xs| && xs[k] == m
    ensures xs == [] ==> m == 0
  {
    if |xs| == 0 then 0
    else if |xs| == 1 then xs[0]
    else
      var rest := Minimum(xs[1..]);
      assert forall k :: 1 <= k < |xs| ==> xs[1..][k - 1] == xs[k];
      if xs[0] <= rest then xs[0] else rest
  }

  /** What `normalize()` returns: the shape moved so that its least x and least y are 0. */
  function Normalized(p: Piece): Piece
  {
    p.(shape := ShiftShape(p.shape, Minimum(Xs(p.shape)), Minimum(Ys(p.shape))))
  }

  /** `equals`: two pieces are equal exactly when their types are, whatever their shapes. */
  function Equals(a: Piece, b: Piece): (r: bool)
    ensures r <==> a.kind == b.kind
  {
    a.kind == b.kind
  }

  /** `HashSet.add` under `equals`: an element equal to one already present is not added. */
  function HashSetAdd(h: seq<Piece>, x: Piece): (r: seq<Piece>)
    ensures (exists k :: 0 <= k < |h| && Equals(h[k], x)) ==> r == h
    ensures (forall k :: 0 <= k < |h| ==> !Equals(h[k], x)) ==> r == h + [x]
  {
    if exists k :: 0 <= k < |h| && Equals(h[k], x) then h else h + [x]
  }

  // ----- The operations, as the source writes them -----

  /** `rotate()`: builds the turned shape point by point with `Point.rotate(1)`. */
  method Rotate(p: Piece) returns (r: Piece)
    ensures r == Turned(p)
  {
    var rotatedShape: seq<Point> := [];
    var k := 0;
    while k < |p.shape|
      invariant 0 <= k <= |p.shape|
      invariant rotatedShape == TurnShape(p.shape[..k])
    {
      var q := Points.Rotate(p.shape[k], 1);
      rotatedShape := rotatedShape + [q];
      k := k + 1;
    }
    assert p.shape[..k] == p.shape;
    r := Piece(p.kind, p.color, rotatedShape, p.name);
  }

  /** `flip()`: builds the mirrored shape point by point. */
  method Flip(p: Piece) returns (r: Piece)
    ensures r == Flipped(p)
  {
    var flippedShape: seq<Point> := [];
    var k := 0;
    while k < |p.shape|
      invariant 0 <= k <= |p.shape|
      invariant flippedShape == FlipShape(p.shape[..k])
    {
      flippedShape := flippedShape + [Points.Flip(p.shape[k])];
      k := k + 1;
    }
    assert p.shape[..k] == p.shape;
    r := Piece(p.kind, p.color, flippedShape, p.name);
  }

  /** `normalize()`: the two stream minima, then a loop building the shifted shape. */
  method Normalize(p: Piece) returns (r: Piece)
    ensures r == Normalized(p)
  {
    var minX := Minimum(Xs(p.shape));
    var minY := Minimum(Ys(p.shape));
    var normalizedShape: seq<Point> := [];
    var k := 0;
    while k < |p.shape|
      invariant 0 <= k <= |p.shape|
      invariant |normalizedShape| == k
      invariant forall j :: 0 <= j < k ==> normalizedShape[j] == Points.Point(p.shape[j].x - minX, p.shape[j].y - minY)
    {
      normalizedShape := normalizedShape + [Points.Point(p.shape[k].x - minX, p.shape[k].y - minY)];
      k := k + 1;
    }
    assert normalizedShape == ShiftShape(p.shape, minX, minY);
    r := Piece(p.kind, p.color, normalizedShape, p.name);
  }

  /**
   * `getAllTransformations()`: adds the current orientation, its mirror and three turns of
   * the mirror to a `HashSet`, four times over. Since `equals` compares types only and every
   * transformation keeps the type, the set ends up holding the receiver alone.
   */
  method GetAllTransformations(p: Piece) returns (transformations: seq<Piece>)
    ensures transformations == [p]
  {
    transformations := [];
    var current := p;
    var i := 0;
    while i < 4
      invariant 0 <= i <= 4
      invariant current.kind == p.kind
      invariant i == 0 ==> current == p && transformations == []
      invariant i > 0 ==> transformations == [p]
    {
      assert i > 0 ==> Equals(transformations[0], current);
      transformations := HashSetAdd(transformations, current);
      var flipped := Flip(current);
      assert Equals(transformations[0], flipped);
      transformations := HashSetAdd(transformations, flipped);
      var j := 0;
      while j < 3
        invariant 0 <= j <= 3
        invariant flipped.kind == p.kind
        invariant transformations == [p]
      {
        flipped := Rotate(flipped);
        assert Equals(transformations[0], flipped);
        transformations := HashSetAdd(transformations, flipped);
        j := j + 1;
      }
      current := Rotate(current);
      i := i + 1;
    }
  }

  // ----- Properties -----

  /** `rotate`, `flip` and `normalize` keep type, colour, name and the number of shape points. */
  lemma TransformsKeepIdentity(p: Piece)
    ensures Turned(p).kind == p.kind && Turned(p).color == p.color && Turned(p).name == p.name
    ensures Flipped(p).kind == p.kind && Flipped(p).color == p.color && Flipped(p).name == p.name
    ensures Normalized(p).kind == p.kind && Normalized(p).color == p.color && Normalized(p).name == p.name
    ensures |Turned(p).shape| == |Flipped(p).shape| == |Normalized(p).shape| == |p.shape|
  {
  }

  /** Every transformation of a piece is `equals` to it. */
  lemma {:induction false} TransformsAreEqual(p: Piece, n: nat)
    ensures Equals(TurnedTimes(p, n), p)
    ensures Equals(Flipped(p), p) && Equals(Normalized(p), p)
  {
    if n > 0 {
      TransformsAreEqual(p, n - 1);
    }
  }

  /** Four successive `rotate` calls give back the original shape, point for point. */
  lemma FourTurnsIdentity(p: Piece)
    ensures TurnedTimes(p, 4) == p
  {
    var p4 := Turned(Turned(Turned(Turned(p))));
    assert TurnedTimes(p, 4) == p4 by {
      assert TurnedTimes(p, 1) == Turned(p);
      assert TurnedTimes(p, 2) == Turned(Turned(p));
      assert TurnedTimes(p, 3) == Turned(Turned(Turned(p)));
    }
    var s := p.shape;
    forall k | 0 <= k < |s|
      ensures p4.shape[k] == s[k]
    {
      assert p4.shape[k] == Points.QuarterTurn(Points.QuarterTurn(Points.QuarterTurn(Points.QuarterTurn(s[k]))));
    }
    assert p4.shape == s;
  }

  /** After `normalize`, every coordinate is non-negative and a non-empty shape touches both axes. */
  lemma NormalizedAtOrigin(p: Piece)
    ensures forall k :: 0 <= k < |Normalized(p).shape| ==> Normalized(p).shape[k].x >= 0 && Normalized(p).shape[k].y >= 0
    ensures Minimum(Xs(Normalized(p).shape)) == 0 && Minimum(Ys(Normalized(p).shape)) == 0
  {
    var s := p.shape;
    var t := Normalized(p).shape;
    var mx, my := Minimum(Xs(s)), Minimum(Ys(s));
    assert forall k :: 0 <= k < |s| ==> Xs(s)[k] == s[k].x && Ys(s)[k] == s[k].y;
    assert forall k :: 0 <= k < |t| ==> t[k].x == s[k].x - mx && t[k].y == s[k].y - my;
    if s != [] {
      var kx :| 0 <= kx < |s| && Xs(s)[kx] == mx;
      var ky :| 0 <= ky < |s| && Ys(s)[ky] == my;
      assert Xs(t)[kx] == 0;
      assert Ys(t)[ky] == 0;
    }
  }

  /** `normalize` is idempotent. */
  lemma NormalizeIdempotent(p: Piece)
    ensures Normalized(Normalized(p)) == Normalized(p)
  {
    NormalizedAtOrigin(p);
    var t := Normalized(p).shape;
    assert ShiftShape(t, 0, 0) == t;
  }

  /** Turning `a` times and then `b` times is turning `a + b` times. */
  lemma {:induction false} TurnsAdd(p: Piece, a: nat, b: nat)
    ensures TurnedTimes(TurnedTimes(p, a), b) == TurnedTimes(p, a + b)
  {
    if b > 0 {
      TurnsAdd(p, a, b - 1);
    }
  }

  /** Only the number of turns modulo four matters. */
  lemma {:induction false} TurnsModFour(p: Piece, n: nat)
    ensures TurnedTimes(p, n) == TurnedTimes(p, n % 4)
  {
    if n >= 4 {
      FourTurnsIdentity(p);
      TurnsAdd(p, 4, n - 4);
      TurnsModFour(p, n - 4);
      assert (n - 4) % 4 == n % 4;
    }
  }

  /** Mirroring a turned piece is turning the mirror three times. */
  lemma FlipAfterTurn(p: Piece)
    ensures Flipped(Turned(p)) == TurnedTimes(Flipped(p), 3)
  {
    var q := Turned(Turned(Turned(Flipped(p))));
    assert TurnedTimes(Flipped(p), 3) == q by {
      assert TurnedTimes(Flipped(p), 1) == Turned(Flipped(p));
      assert TurnedTimes(Flipped(p), 2) == Turned(Turned(Flipped(p)));
    }
    var s := p.shape;
    forall k | 0 <= k < |s|
      ensures Flipped(Turned(p)).shape[k] == q.shape[k]
    {
      assert q.shape[k] == Points.QuarterTurn(Points.QuarterTurn(Points.QuarterTurn(Points.Flip(s[k]))));
    }
    assert Flipped(Turned(p)).shape == q.shape;
  }

  /** Mirroring a piece turned `n` times is turning the mirror `3 n` times. */
  lemma {:induction false} FlipAfterTurns(p: Piece, n: nat)
    ensures Flipped(TurnedTimes(p, n)) == TurnedTimes(Flipped(p), 3 * n)
  {
    if n > 0 {
      FlipAfterTurns(p, n - 1);
      FlipAfterTurn(TurnedTimes(p, n - 1));
      TurnsAdd(Flipped(p), 3 * (n - 1), 3);
    }
  }

  // ----- The piece set -----

  /** The shape points of one piece are pairwise distinct. */
  predicate DistinctPoints(s: seq<Point>)
  {
    forall j, k :: 0 <= j < k < |s| ==> s[j] != s[k]
  }

  function Pt(x: int, y: int): Point
  {
    Points.Point(x, y)
  }

  /** `createAllPieces()`: the twelve pentominoes, each with five distinct cells and its own type. */
  function AllPieces(): (r: seq<Piece>)
    ensures |r| == 12
    ensures forall j, k :: 0 <= j < k < |r| ==> r[j].kind != r[k].kind
    ensures forall k :: 0 <= k < |r| ==> |r[k].shape| == 5 && DistinctPoints(r[k].shape)
  {
    var r := [
      Piece(F, Color(255, 0, 0), [Pt(0, 0), Pt(0, 1), Pt(0, 2), Pt(1, 0), Pt(-1, 1)], "F"),
      Piece(I, Color(0, 0, 139), [Pt(0, 0), Pt(0, 1), Pt(0, 2), Pt(0, 3), Pt(0, 4)], "I"),
      Piece(L, Color(210, 180, 140), [Pt(0, 0), Pt(0, 1), Pt(0, 2), Pt(0, 3), Pt(1, 3)], "L"),
      Piece(N, Color(139, 69, 19), [Pt(0, 0), Pt(1, 0), Pt(2, 0), Pt(2, 1), Pt(3, 1)], "N"),
      Piece(P, Color(105, 105, 105), [Pt(0, 0), Pt(0, 1), Pt(0, 2), Pt(1, 0), Pt(1, 1)], "P"),
      Piece(T, Color(211, 211, 211), [Pt(0, 0), Pt(1, 0), Pt(2, 0), Pt(1, 1), Pt(1, 2)], "T"),
      Piece(U, Color(139, 69, 19), [Pt(0, 0), Pt(0, 1), Pt(1, 1), Pt(2, 1), Pt(2, 0)], "U"),
      Piece(V, Color(255, 165, 0), [Pt(0, 0), Pt(1, 0), Pt(2, 0), Pt(2, 1), Pt(2, 2)], "V"),
      Piece(W, Color(0, 0, 0), [Pt(0, 0), Pt(1, 0), Pt(1, 1), Pt(2, 1), Pt(2, 2)], "W"),
      Piece(X, Color(144, 238, 144), [Pt(1, 0), Pt(0, 1), Pt(1, 1), Pt(2, 1), Pt(1, 2)], "X"),
      Piece(Y, Color(0, 100, 0), [Pt(0, 0), Pt(1, 0), Pt(2, 0), Pt(3, 0), Pt(1, 1)], "Y"),
      Piece(Z, Color(255, 255, 0), [Pt(0, 0), Pt(1, 0), Pt(1, 1), Pt(1, 2), Pt(2, 2)], "Z")
    ];
    r
  }

  /** The types of a sequence of pieces. */
  function Kinds(ps: seq<Piece>): set<PieceType>
  {
    set k | 0 <= k < |ps| :: ps[k].kind
  }

  /** Every one of the twelve types occurs among the created pieces. */
  lemma AllPiecesCoverTypes(t: PieceType)
    ensures t in Kinds(AllPieces())
  {
    var r := AllPieces();
    match t
    case F => assert r[0].kind == t;
    case I => assert r[1].kind == t;
    case L => assert r[2].kind == t;
    case N => assert r[3].kind == t;
    case P => assert r[4].kind == t;
    case T => assert r[5].kind == t;
    case U => assert r[6].kind == t;
    case V => assert r[7].kind == t;
    case W => assert r[8].kind == t;
    case X => assert r[9].kind == t;
    case Y => assert r[10].kind == t;
    case Z => assert r[11].kind == t;
  }
}
