/**
 * `ComputerStrategyMinMaxDynamic.java`: minimax whose depth follows the game phase, read off
 * the number of empty squares; the phase flags only ever advance.
 */
module Dynamic {
  import opened Options
  import opened Ints
  import opened Boards
  import opened Games
  import opened Moves
  import opened Search
  import opened MinMax

  datatype GamePhase = Early | Mid | End

  /** How far the game has advanced. */
  function Rank(p: GamePhase): nat
  {
    match p
    case Early => 0
    case Mid => 1
    case End => 2
  }

  /** `determinePhase` without its bookkeeping: the end test first, then the mid test. */
  function PhaseFor(emptySquares: int, thresholdMid: int, thresholdEnd: int): (p: GamePhase)
    ensures p == End <==> emptySquares <= thresholdEnd
    ensures p == Mid <==> thresholdEnd < emptySquares <= thresholdMid
    ensures p == Early <==> emptySquares > thresholdEnd && emptySquares > thresholdMid
  {
    if emptySquares <= thresholdEnd then End
    else if emptySquares <= thresholdMid then Mid
    else Early
  }

  /** The most advanced of `Early` and the phases in `ps`. */
  function MostAdvanced(ps: seq<GamePhase>): GamePhase
  {
    if End in ps then End else if Mid in ps then Mid else Early
  }

  class MinMaxDynamicStrategy {
    const depthEarly: int
    const depthMid: int
    const depthEnd: int
    const thresholdMid: int
    const thresholdEnd: int
    const earlyStrategy: MinMaxStrategy
    const midStrategy: MinMaxStrategy
    const endStrategy: MinMaxStrategy
    var currentDepth: int
    var switchedToMid: bool
    var switchedToEnd: bool
    var midSwitchMove: int
    var endSwitchMove: int
    /** Every phase `determinePhase` has returned, in order. */
    ghost var phases: seq<GamePhase>

    ghost predicate Valid()
      reads this
    {
      earlyStrategy.Valid() && midStrategy.Valid() && endStrategy.Valid() &&
      earlyStrategy.maxDepth == Clamp(depthEarly, 1, 5) &&
      midStrategy.maxDepth == Clamp(depthMid, 1, 5) &&
      endStrategy.maxDepth == Clamp(depthEnd, 1, 5) &&
      (switchedToEnd <==> End in phases) && (switchedToMid <==> Mid in phases) &&
      (switchedToEnd <==> endSwitchMove >= 0) && (!switchedToEnd ==> endSwitchMove == -1) &&
      (switchedToMid <==> midSwitchMove >= 0) && (!switchedToMid ==> midSwitchMove == -1) &&
      earlyStrategy != midStrategy && midStrategy != endStrategy && earlyStrategy != endStrategy
    }

    /** `new ComputerStrategyMinMaxDynamic(...)`: one minimax strategy per phase, early depth first. */
    constructor (dEarly: int, dMid: int, dEnd: int, tMid: int, tEnd: int)
      ensures Valid()
      ensures depthEarly == dEarly && depthMid == dMid && depthEnd == dEnd
      ensures thresholdMid == tMid && thresholdEnd == tEnd
      ensures currentDepth == dEarly && phases == []
      ensures !switchedToMid && !switchedToEnd && midSwitchMove == -1 && endSwitchMove == -1
    {
      depthEarly := dEarly;
      depthMid := dMid;
      depthEnd := dEnd;
      thresholdMid := tMid;
      thresholdEnd := tEnd;
      earlyStrategy := new MinMaxStrategy(dEarly);
      midStrategy := new MinMaxStrategy(dMid);
      endStrategy := new MinMaxStrategy(dEnd);
      currentDepth := dEarly;
      switchedToMid := false;
      switchedToEnd := false;
      midSwitchMove := -1;
      endSwitchMove := -1;
      phases := [];
    }

    /** `new ComputerStrategyMinMaxDynamic()`: depths 2, 3, 4, thresholds 32 and 18. */
    constructor Default()
      ensures Valid()
      ensures depthEarly == 2 && depthMid == 3 && depthEnd == 4
      ensures thresholdMid == 32 && thresholdEnd == 18
      ensures currentDepth == 2 && phases == []
      ensures !switchedToMid && !switchedToEnd && midSwitchMove == -1 && endSwitchMove == -1
    {
      depthEarly := 2;
      depthMid := 3;
      depthEnd := 4;
      thresholdMid := 32;
      thresholdEnd := 18;
      earlyStrategy := new MinMaxStrategy(2);
      midStrategy := new MinMaxStrategy(3);
      endStrategy := new MinMaxStrategy(4);
      currentDepth := 2;
      switchedToMid := false;
      switchedToEnd := false;
      midSwitchMove := -1;
      endSwitchMove := -1;
      phases := [];
    }

    /** The depth of a phase. */
    function DepthOf(p: GamePhase): int
      reads this
    {
      match p
      case Early => depthEarly
      case Mid => depthMid
      case End => depthEnd
    }

    /** The minimax strategy of a phase. */
    function StrategyOf(p: GamePhase): MinMaxStrategy
      reads this
    {
      match p
      case Early => earlyStrategy
      case Mid => midStrategy
      case End => endStrategy
    }

    /**
     * `determinePhase`: sets a phase flag, and records its move, only the first time the phase
     * is returned; nothing ever clears a flag.
     */
    method DeterminePhase(emptySquares: int, moveCount: int) returns (phase: GamePhase)
      requires Valid() && moveCount >= 0
      modifies this
      ensures Valid()
      ensures phase == PhaseFor(emptySquares, thresholdMid, thresholdEnd)
      ensures phases == old(phases) + [phase]
      ensures switchedToEnd == (old(switchedToEnd) || phase == End)
      ensures switchedToMid == (old(switchedToMid) || phase == Mid)
      ensures endSwitchMove == if phase == End && !old(switchedToEnd) then moveCount else old(endSwitchMove)
      ensures midSwitchMove == if phase == Mid && !old(switchedToMid) then moveCount else old(midSwitchMove)
      ensures currentDepth == old(currentDepth)
    {
      if emptySquares <= thresholdEnd {
        if !switchedToEnd {
          switchedToEnd := true;
          endSwitchMove := moveCount;
        }
        phase := End;
      } else if emptySquares <= thresholdMid {
        if !switchedToMid {
          switchedToMid := true;
          midSwitchMove := moveCount;
        }
        phase := Mid;
      } else {
        phase := Early;
      }
      phases := phases + [phase];
    }

    /**
     * `calculateMove`: the phase of the current empty-square count picks the depth and the
     * minimax strategy, which computes the move.
     */
    method CalculateMove(state: GameState) returns (move: Option<ComputerMove>)
      requires Valid() && state.Valid()
      modifies this, earlyStrategy, midStrategy, endStrategy
      ensures Valid()
      ensures |phases| == |old(phases)| + 1 && phases[..|old(phases)|] == old(phases)
      ensures phases[|phases| - 1] == PhaseFor(Size * Size - OccupiedCount(state.board.value), thresholdMid, thresholdEnd)
      ensures currentDepth == DepthOf(phases[|phases| - 1])
      ensures switchedToEnd == (old(switchedToEnd) || phases[|phases| - 1] == End)
      ensures switchedToMid == (old(switchedToMid) || phases[|phases| - 1] == Mid)
      ensures endSwitchMove ==
        if phases[|phases| - 1] == End && !old(switchedToEnd) then |state.history| else old(endSwitchMove)
      ensures midSwitchMove ==
        if phases[|phases| - 1] == Mid && !old(switchedToMid) then |state.history| else old(midSwitchMove)
      ensures RootChoice(state.Value(), Clamp(currentDepth, 1, 5), Mobility, move, StrategyOf(phases[|phases| - 1]).nodesEvaluated)
      ensures forall p :: p != phases[|phases| - 1] ==> StrategyOf(p).nodesEvaluated == old(StrategyOf(p).nodesEvaluated)
    {
      var occupied := state.board.GetOccupiedSquareCount();
      var emptySquares := Size * Size - occupied;
      var moveCount := state.GetMoveCount();
      var phase := DeterminePhase(emptySquares, moveCount);
      move := SearchPhase(phase, state);
    }

    /** The second half of `calculateMove`: the phase's depth and strategy search the move. */
    method SearchPhase(phase: GamePhase, state: GameState) returns (move: Option<ComputerMove>)
      requires Valid() && state.Valid()
      modifies this, earlyStrategy, midStrategy, endStrategy
      ensures Valid() && phases == old(phases)
      ensures currentDepth == DepthOf(phase)
      ensures switchedToMid == old(switchedToMid) && switchedToEnd == old(switchedToEnd)
      ensures midSwitchMove == old(midSwitchMove) && endSwitchMove == old(endSwitchMove)
      ensures RootChoice(state.Value(), Clamp(currentDepth, 1, 5), Mobility, move, StrategyOf(phase).nodesEvaluated)
      ensures forall p :: p != phase ==> StrategyOf(p).nodesEvaluated == old(StrategyOf(p).nodesEvaluated)
    {
      var activeStrategy := StrategyOf(phase);
      currentDepth := DepthOf(phase);
      move := activeStrategy.CalculateMove(state);
    }

    /** `getCurrentPhase`: the most advanced phase ever returned, whatever this call returned. */
    function GetCurrentPhase(): (p: GamePhase)
      requires Valid()
      reads this
      ensures p == MostAdvanced(phases)
      ensures forall i :: 0 <= i < |phases| ==> Rank(phases[i]) <= Rank(p)
    {
      if switchedToEnd then End else if switchedToMid then Mid else Early
    }
  }

  // ----- Properties -----

  /** Fewer empty squares never give an earlier phase. */
  lemma PhaseMonotone(e1: int, e2: int, thresholdMid: int, thresholdEnd: int)
    requires e1 <= e2
    ensures Rank(PhaseFor(e2, thresholdMid, thresholdEnd)) <= Rank(PhaseFor(e1, thresholdMid, thresholdEnd))
  {
  }

  /** `MostAdvanced` bounds every phase of the list and is one of them unless it is `Early`. */
  lemma {:induction false} MostAdvancedBounds(ps: seq<GamePhase>)
    ensures forall i :: 0 <= i < |ps| ==> Rank(ps[i]) <= Rank(MostAdvanced(ps))
    ensures MostAdvanced(ps) == Early || MostAdvanced(ps) in ps
  {
    forall i | 0 <= i < |ps|
      ensures Rank(ps[i]) <= Rank(MostAdvanced(ps))
    {
      assert ps[i] in ps;
    }
  }

  /** `ComputerStrategyMinMaxDynamic.Builder`: the same defaults as the no-argument constructor. */
  class DynamicBuilder {
    var depthEarly: int
    var depthMid: int
    var depthEnd: int
    var thresholdMid: int
    var thresholdEnd: int

    constructor ()
      ensures depthEarly == 2 && depthMid == 3 && depthEnd == 4 && thresholdMid == 32 && thresholdEnd == 18
    {
      depthEarly := 2;
      depthMid := 3;
      depthEnd := 4;
      thresholdMid := 32;
      thresholdEnd := 18;
    }

    method WithEarlyDepth(depth: int)
      modifies this`depthEarly
      ensures depthEarly == depth
    {
      depthEarly := depth;
    }

    method WithMidDepth(depth: int)
      modifies this`depthMid
      ensures depthMid == depth
    {
      depthMid := depth;
    }

    method WithEndDepth(depth: int)
      modifies this`depthEnd
      ensures depthEnd == depth
    {
      depthEnd := depth;
    }

    method WithMidThreshold(threshold: int)
      modifies this`thresholdMid
      ensures thresholdMid == threshold
    {
      thresholdMid := threshold;
    }

    method WithEndThreshold(threshold: int)
      modifies this`thresholdEnd
      ensures thresholdEnd == threshold
    {
      thresholdEnd := threshold;
    }

    method Build() returns (s: MinMaxDynamicStrategy)
      ensures fresh(s) && s.Valid() && s.phases == []
      ensures s.depthEarly == depthEarly && s.depthMid == depthMid && s.depthEnd == depthEnd
      ensures s.thresholdMid == thresholdMid && s.thresholdEnd == thresholdEnd
    {
      s := new MinMaxDynamicStrategy(depthEarly, depthMid, depthEnd, thresholdMid, thresholdEnd);
    }
  }
}
