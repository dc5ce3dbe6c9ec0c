/**
 * `ComputerStrategyMinMaxProportional.java`: minimax whose depth grows with the computer's
 * move count, divided by a strength factor and kept between 1 and 6.
 */
module Proportional {
  import opened Options
  import opened Ints
  import opened Games
  import opened Moves
  import opened Search
  import opened MinMax

  /** The strength factor `num / den`, a positive rational: 1 is hard, 3/2 fair, 2 easy. */
  datatype Strength = Strength(num: int, den: int)

  predicate ValidStrength(s: Strength)
  {
    s.num > 0 && s.den > 0
  }

  /** Java's `/` on `int`: the quotient truncated toward zero. */
  function JavaDiv(a: int, b: int): (q: int)
    requires b > 0
    ensures a >= 0 ==> q >= 0 && q * b <= a < q * b + b
    ensures a < 0 ==> q <= 0 && q * b - b < a <= q * b
  {
    if a >= 0 then a / b else -((-a) / b)
  }

  /** `(totalMoves + 1) / 2`: the computer plays the odd-numbered moves. */
  function ComputerMoveCount(totalMoveCount: int): int
  {
    JavaDiv(totalMoveCount + 1, 2)
  }

  /**
   * `getDepthForMoveCount`: `floor(computerMoveCount / strength)`, at least 1 and at most 6.
   * Dividing by `num / den` is multiplying by `den` and dividing by `num`, rounding down.
   */
  function DepthForMoveCount(s: Strength, totalMoveCount: int): (d: int)
    requires ValidStrength(s)
    ensures 1 <= d <= 6
  {
    Min(Max(1, (ComputerMoveCount(totalMoveCount) * s.den) / s.num), 6)
  }

  class MinMaxProportionalStrategy {
    const strengthFactor: Strength
    /** The depth-1 strategy the constructor builds; the moves use a fresh one per call. */
    const minMaxStrategy: MinMaxStrategy
    var currentDepth: int
    var lastMoveCount: int

    ghost predicate Valid()
      reads this
    {
      ValidStrength(strengthFactor) && minMaxStrategy.Valid() && minMaxStrategy.maxDepth == 1
    }

    /** The constructor once its positivity check has passed: depth 1, no move seen. */
    constructor (s: Strength)
      requires ValidStrength(s)
      ensures Valid()
      ensures strengthFactor == s && currentDepth == 1 && lastMoveCount == -1
    {
      strengthFactor := s;
      minMaxStrategy := new MinMaxStrategy(1);
      currentDepth := 1;
      lastMoveCount := -1;
    }

    /** `new ComputerStrategyMinMaxProportional()`: strength 1, the hardest. */
    constructor Default()
      ensures Valid()
      ensures strengthFactor == Strength(1, 1) && currentDepth == 1 && lastMoveCount == -1
    {
      strengthFactor := Strength(1, 1);
      minMaxStrategy := new MinMaxStrategy(1);
      currentDepth := 1;
      lastMoveCount := -1;
    }

    /**
     * `calculateMove`: the depth of the current move count, searched by a new minimax
     * strategy, whose own clamp caps the depth actually searched at 5.
     */
    method CalculateMove(state: GameState) returns (move: Option<ComputerMove>)
      requires Valid() && state.Valid()
      modifies this
      ensures Valid()
      ensures currentDepth == DepthForMoveCount(strengthFactor, |state.history|)
      ensures lastMoveCount == |state.history|
      ensures exists nodes: nat :: RootChoice(state.Value(), Clamp(currentDepth, 1, 5), Mobility, move, nodes)
    {
      var totalMoveCount := state.GetMoveCount();
      var computerMoveCount := JavaDiv(totalMoveCount + 1, 2);
      var calculatedDepth := Max(1, (computerMoveCount * strengthFactor.den) / strengthFactor.num);
      var targetDepth := Min(calculatedDepth, 6);
      assert targetDepth == DepthForMoveCount(strengthFactor, totalMoveCount);
      if totalMoveCount != lastMoveCount {
        lastMoveCount := totalMoveCount;
        currentDepth := targetDepth;
      }
      if targetDepth != currentDepth {
        currentDepth := targetDepth;
      }
      var strategy := new MinMaxStrategy(currentDepth);
      move := strategy.CalculateMove(state);
      ghost var nodes := strategy.nodesEvaluated;
      assert RootChoice(state.Value(), Clamp(currentDepth, 1, 5), Mobility, move, nodes);
    }
  }

  /** The constructor: refuses a strength that is not positive. */
  method Create(s: Strength) returns (r: Result<MinMaxProportionalStrategy>)
    requires s.den > 0
    ensures r.Err? <==> s.num <= 0
    ensures r.Ok? ==> r.value.Valid() && r.value.strengthFactor == s && r.value.currentDepth == 1
  {
    if s.num <= 0 {
      return Err("Strength factor must be positive");
    }
    var p := new MinMaxProportionalStrategy(s);
    return Ok(p);
  }

  /** `toLowerCase` on ASCII letters. */
  function LowerAscii(s: string): (r: string)
    ensures |r| == |s|
    ensures forall i :: 0 <= i < |s| ==> r[i] == if 'A' <= s[i] <= 'Z' then (s[i] as int + 32) as char else s[i]
  {
    if s == [] then []
    else LowerAscii(s[..|s| - 1]) + [if 'A' <= s[|s| - 1] <= 'Z' then (s[|s| - 1] as int + 32) as char else s[|s| - 1]]
  }

  /** `withDifficulty`: "hard", "fair" or "easy" in any letter case; anything else is refused. */
  function DifficultyStrength(difficulty: string): (r: Result<Strength>)
    ensures r.Ok? <==> LowerAscii(difficulty) in {"hard", "fair", "easy"}
    ensures r.Ok? ==> ValidStrength(r.value)
    ensures LowerAscii(difficulty) == "hard" ==> r == Ok(Strength(1, 1))
    ensures LowerAscii(difficulty) == "fair" ==> r == Ok(Strength(3, 2))
    ensures LowerAscii(difficulty) == "easy" ==> r == Ok(Strength(2, 1))
  {
    var d := LowerAscii(difficulty);
    if d == "hard" then Ok(Strength(1, 1))
    else if d == "fair" then Ok(Strength(3, 2))
    else if d == "easy" then Ok(Strength(2, 1))
    else Err("Unknown difficulty: " + difficulty)
  }

  /** `ComputerStrategyMinMaxProportional.Builder`: strength 1 unless set. */
  class ProportionalBuilder {
    var strengthFactor: Strength

    ghost predicate Valid()
      reads this
    {
      ValidStrength(strengthFactor)
    }

    constructor ()
      ensures Valid() && strengthFactor == Strength(1, 1)
    {
      strengthFactor := Strength(1, 1);
    }

    /** `withStrength`: refuses a strength that is not positive and then keeps the old one. */
    method WithStrength(s: Strength) returns (ok: bool)
      requires Valid() && s.den > 0
      modifies this
      ensures Valid()
      ensures ok <==> s.num > 0
      ensures strengthFactor == if ok then s else old(strengthFactor)
    {
      if s.num <= 0 {
        return false;
      }
      strengthFactor := s;
      return true;
    }

    /** `withDifficulty`: refuses an unknown name and then keeps the old strength. */
    method WithDifficulty(difficulty: string) returns (ok: bool)
      requires Valid()
      modifies this
      ensures Valid()
      ensures ok <==> DifficultyStrength(difficulty).Ok?
      ensures strengthFactor == if ok then DifficultyStrength(difficulty).value else old(strengthFactor)
    {
      var r := DifficultyStrength(difficulty);
      if r.Err? {
        return false;
      }
      strengthFactor := r.value;
      return true;
    }

    /** `build`: never refused, since the strength is always positive. */
    method Build() returns (p: MinMaxProportionalStrategy)
      requires Valid()
      ensures fresh(p) && p.Valid() && p.strengthFactor == strengthFactor && p.currentDepth == 1
    {
      p := new MinMaxProportionalStrategy(strengthFactor);
    }
  }

  // ----- Properties -----

  /** Multiplying by a non-negative number keeps the order. */
  lemma {:induction false} MulMonotone(k: nat, x: int, y: int)
    requires x <= y
    ensures k * x <= k * y
  {
    if k > 0 {
      MulMonotone(k - 1, x, y);
      assert k * x == (k - 1) * x + x;
      assert k * y == (k - 1) * y + y;
    }
  }

  /** Any `q` with `q * n <= a` is at most `a / n`. */
  lemma DivLowerBound(q: int, a: int, n: int)
    requires n > 0 && q * n <= a
    ensures q <= a / n
  {
    var r := a / n;
    assert a == r * n + a % n && a % n < n;
    if q > r {
      MulMonotone(n, r + 1, q);
    }
  }

  /** Rounding-down division by a positive number keeps the order of its dividends. */
  lemma DivMonotone(a: int, b: int, n: int)
    requires a <= b && n > 0
    ensures a / n <= b / n
  {
    var q := a / n;
    assert q * n + a % n == a && a % n >= 0;
    DivLowerBound(q, b, n);
  }

  lemma ComputerMoveCountMonotone(t1: int, t2: int)
    requires t1 <= t2
    ensures ComputerMoveCount(t1) <= ComputerMoveCount(t2)
  {
    if t1 + 1 >= 0 {
      DivMonotone(t1 + 1, t2 + 1, 2);
    } else if t2 + 1 < 0 {
      DivMonotone(-(t2 + 1), -(t1 + 1), 2);
    }
  }

  /** For a fixed strength the depth never falls as the game goes on. */
  lemma DepthMonotone(s: Strength, t1: int, t2: int)
    requires ValidStrength(s) && t1 <= t2
    ensures DepthForMoveCount(s, t1) <= DepthForMoveCount(s, t2)
  {
    ComputerMoveCountMonotone(t1, t2);
    ScaledQuotientMonotone(ComputerMoveCount(t1), ComputerMoveCount(t2), s);
  }

  /** `(c * den) / num` never falls as `c` grows. */
  lemma ScaledQuotientMonotone(c1: int, c2: int, s: Strength)
    requires ValidStrength(s) && c1 <= c2
    ensures (c1 * s.den) / s.num <= (c2 * s.den) / s.num
  {
    MulMonotone(s.den, c1, c2);
    DivMonotone(s.den * c1, s.den * c2, s.num);
  }

  /** At strength 1 the depth is the computer's move count, kept between 1 and 6. */
  lemma HardDepth(totalMoveCount: nat)
    ensures DepthForMoveCount(Strength(1, 1), totalMoveCount) == Min(6, Max(1, (totalMoveCount + 1) / 2))
  {
  }

  /** A harder (smaller) strength never gives a shallower search. */
  lemma StrongerSearchesDeeper(s1: Strength, s2: Strength, totalMoveCount: nat)
    requires ValidStrength(s1) && ValidStrength(s2)
    requires s1.num * s2.den <= s2.num * s1.den
    ensures DepthForMoveCount(s2, totalMoveCount) <= DepthForMoveCount(s1, totalMoveCount)
  {
    QuotientOrder(ComputerMoveCount(totalMoveCount), s1, s2);
  }

  /** `c / s2 <= c / s1`, rounded down, when `s1 <= s2`. */
  lemma QuotientOrder(c: nat, s1: Strength, s2: Strength)
    requires ValidStrength(s1) && ValidStrength(s2)
    requires s1.num * s2.den <= s2.num * s1.den
    ensures (c * s2.den) / s2.num <= (c * s1.den) / s1.num
  {
    var q: nat := (c * s2.den) / s2.num;
    assert q * s2.num <= c * s2.den;
    ScaledOrder(q, c, s1, s2);
    DivLowerBound(q, c * s1.den, s1.num);
  }

  /** From `q * num2 <= c * den2` and `num1 / den1 <= num2 / den2` follows `q * num1 <= c * den1`. */
  lemma ScaledOrder(q: nat, c: nat, s1: Strength, s2: Strength)
    requires ValidStrength(s1) && ValidStrength(s2)
    requires s1.num * s2.den <= s2.num * s1.den
    requires q * s2.num <= c * s2.den
    ensures q * s1.num <= c * s1.den
  {
    MulMonotone(q, s1.num * s2.den, s2.num * s1.den);
    MulMonotone(s1.den, q * s2.num, c * s2.den);
    assert q * (s1.num * s2.den) == s2.den * (q * s1.num);
    assert q * (s2.num * s1.den) == s1.den * (q * s2.num);
    assert s1.den * (c * s2.den) == s2.den * (c * s1.den);
    Cancel(s2.den, q * s1.num, c * s1.den);
  }

  /** A positive common factor can be cancelled from an inequality. */
  lemma Cancel(d: int, x: int, y: int)
    requires d > 0 && d * x <= d * y
    ensures x <= y
  {
    if x > y {
      MulMonotone(d, y + 1, x);
    }
  }
}
