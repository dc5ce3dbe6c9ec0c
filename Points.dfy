/** A point of a piece shape or of the board: `Point.java`. */
module Points {
  datatype Point = Point(x: int, y: int)

  /** `add`: the componentwise sum, so translating the result back by `q` gives `p`. */
  function Add(p: Point, q: Point): (r: Point)
    ensures r.x - q.x == p.x && r.y - q.y == p.y
  {
    Point(p.x + q.x, p.y + q.y)
  }

  /** `flip`: mirror across the x axis, keeping x and cancelling y. */
  function Flip(p: Point): (r: Point)
    ensures r.x == p.x && r.y + p.y == 0
  {
    Point(p.x, -p.y)
  }

  /** One step of `rotate`: the quarter turn (x, y) to (y, -x). */
  function QuarterTurn(p: Point): Point
  {
    Point(p.y, -p.x)
  }

  /** `times` quarter turns in a row; a count of zero or less turns nothing. */
  function Rotated(p: Point, times: int): Point
    decreases times
  {
    if times <= 0 then p else QuarterTurn(Rotated(p, times - 1))
  }

  /** The four distinct results of turning `p`, indexed by the turn count modulo 4. */
  function TurnTable(p: Point): seq<Point>
  {
    [p, Point(p.y, -p.x), Point(-p.x, -p.y), Point(-p.y, p.x)]
  }

  /** `rotate(times)`: the loop reassigning `result` once per turn. */
  method Rotate(p: Point, times: int) returns (result: Point)
    ensures result == Rotated(p, times)
    ensures times >= 0 ==> result == TurnTable(p)[times % 4]
  {
    result := p;
    var i := 0;
    while i < times
      invariant times >= 0 ==> 0 <= i <= times
      invariant times < 0 ==> i == 0
      invariant result == Rotated(p, i)
    {
      result := Point(result.y, -result.x);
      i := i + 1;
    }
    if times >= 0 {
      RotatedClosedForm(p, times);
    }
  }

  /** `equals`: both coordinates agree, which is exactly value equality. */
  function Equals(p: Point, q: Point): (r: bool)
    ensures r <==> p == q
  {
    p.x == q.x && p.y == q.y
  }

  /** A single turn maps (x, y) to (y, -x); zero or negative counts are the identity. */
  lemma RotateOnceAndNonPositive(p: Point, n: int)
    ensures Rotated(p, 1) == Point(p.y, -p.x)
    ensures n <= 0 ==> Rotated(p, n) == p
  {
  }

  /** Turning is 4-periodic, so four quarter turns give back the original point. */
  lemma {:induction false} RotatePeriodic(p: Point, n: int)
    requires n >= 0
    ensures Rotated(p, n + 4) == Rotated(p, n)
    ensures Rotated(p, 4) == p
  {
    assert Rotated(p, 4) == p;
    if n > 0 {
      RotatePeriodic(p, n - 1);
    }
  }

  /** Turning n times depends only on n modulo 4. */
  lemma {:induction false} RotatedClosedForm(p: Point, n: int)
    requires n >= 0
    ensures Rotated(p, n) == TurnTable(p)[n % 4]
  {
    if n >= 4 {
      RotatedClosedForm(p, n - 4);
      RotatePeriodic(p, n - 4);
      assert (n - 4) % 4 == n % 4;
    } else {
      assert Rotated(p, 3) == Point(-p.y, p.x);
    }
  }

  /** `flip` undoes itself. */
  lemma FlipInvolution(p: Point)
    ensures Flip(Flip(p)) == p
  {
  }

  /** `add` is commutative and associative, and the origin is its unit. */
  lemma AddLaws(p: Point, q: Point, s: Point)
    ensures Add(p, q) == Add(q, p)
    ensures Add(Add(p, q), s) == Add(p, Add(q, s))
    ensures Add(p, Point(0, 0)) == p
  {
  }
}
