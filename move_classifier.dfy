/**
 * The move classifier of `ChessUtils._describe_move`: a pure function of the win
 * probabilities before and after a move, whether the played move is the oracle's best
 * move, and the label of the previous ply. Probabilities are exact reals here.
 */
module MoveClassifier {

  /** The eight quality labels the classifier can return. */
  datatype Descriptor = Best | Excellent | Good | Inaccuracy | Mistake | Blunder | GreatMove | Miss
  {
    /** The label text as the source spells it. */
    function Name(): string {
      match this
      case Best => "Best"
      case Excellent => "Excellent"
      case Good => "Good"
      case Inaccuracy => "Inaccuracy"
      case Mistake => "Mistake"
      case Blunder => "Blunder"
      case GreatMove => "Great Move"
      case Miss => "Miss"
    }

    /** Rank from best (0) to worst (5) of the labels the thresholds produce. */
    function Severity(): nat {
      match this
      case Best => 0
      case GreatMove => 0
      case Excellent => 1
      case Good => 2
      case Inaccuracy => 3
      case Mistake => 4
      case Miss => 4
      case Blunder => 5
    }
  }

  /** The previous label is one of "Mistake", "Blunder", "Miss". Any other text,
      including an empty sentinel for the first ply, does not trigger hysteresis. */
  predicate FollowsError(previous: string) {
    previous == "Mistake" || previous == "Blunder" || previous == "Miss"
  }

  /** The text a label hands on as the next ply's `previous` triggers the hysteresis
      exactly for the three error labels. */
  lemma NameMarksError(d: Descriptor)
    ensures FollowsError(d.Name()) <==> d == Mistake || d == Blunder || d == Miss
  {
  }

  /** Reference description of the threshold bands: half-open, upper bound inclusive. */
  predicate InBand(l: Descriptor, drop: real) {
    match l
    case Excellent => 0.0 < drop <= 0.02
    case Good => 0.02 < drop <= 0.05
    case Inaccuracy => 0.05 < drop <= 0.1
    case Mistake => 0.1 < drop <= 0.2
    case Blunder => 0.2 < drop
    case _ => false
  }

  /** `max(0.0, before - after)`: the drop in win probability, floored at zero. */
  function Drop(before: real, after: real): (d: real)
    ensures d >= 0.0 && d >= before - after
    ensures d == 0.0 || d == before - after
    ensures d == 0.0 <==> after >= before
  {
    if before - after > 0.0 then before - after else 0.0
  }

  /** The label chosen from the drop alone, before the hysteresis correction. */
  function BaseDescriptor(drop: real, isBestMove: bool): (l: Descriptor)
    ensures l == Best <==> drop == 0.0 || isBestMove
    ensures drop > 0.0 && !isBestMove ==> InBand(l, drop)
    ensures l != GreatMove && l != Miss
  {
    if drop == 0.0 || isBestMove then Best
    else if 0.0 < drop <= 0.02 then Excellent
    else if 0.02 < drop <= 0.05 then Good
    else if 0.05 < drop <= 0.1 then Inaccuracy
    else if 0.1 < drop <= 0.2 then Mistake
    else Blunder
  }

  /** The one-step hysteresis: a recovery after an error is a Great Move, a second
      serious error in a row is a Miss, everything else is left alone. */
  function Relabel(base: Descriptor, previous: string): (l: Descriptor)
    ensures FollowsError(previous) && base == Best ==> l == GreatMove
    ensures FollowsError(previous) && (base == Mistake || base == Blunder) ==> l == Miss
    ensures !FollowsError(previous) ==> l == base
    ensures base != Best && base != Mistake && base != Blunder ==> l == base
  {
    if FollowsError(previous) && base == Best then GreatMove
    else if FollowsError(previous) && (base == Mistake || base == Blunder) then Miss
    else base
  }

  /** `_describe_move`: the floored drop and the final label. */
  function DescribeMove(before: real, after: real, currentMove: string, bestMove: string,
                        previous: string): (r: (real, Descriptor))
    ensures r.0 >= 0.0 && (r.0 == 0.0 || r.0 == before - after)
    ensures r.0 == 0.0 <==> after >= before
    ensures !FollowsError(previous) && (r.0 == 0.0 || currentMove == bestMove) ==> r.1 == Best
    ensures !FollowsError(previous) && r.0 > 0.0 && currentMove != bestMove ==> InBand(r.1, r.0)
    ensures FollowsError(previous) && (r.0 == 0.0 || currentMove == bestMove) ==> r.1 == GreatMove
    ensures FollowsError(previous) && currentMove != bestMove && r.0 > 0.1 ==> r.1 == Miss
    ensures FollowsError(previous) && currentMove != bestMove && 0.0 < r.0 <= 0.1 ==> InBand(r.1, r.0)
    ensures r.1 == GreatMove || r.1 == Miss ==> FollowsError(previous)
    ensures r.1 == Excellent || r.1 == Good || r.1 == Inaccuracy ==>
              currentMove != bestMove && InBand(r.1, before - after)
  {
    var diff := Drop(before, after);
    (diff, Relabel(BaseDescriptor(diff, currentMove == bestMove), previous))
  }

  /** For a non-best move the bands are ordered: a larger drop never earns a better label. */
  lemma BaseDescriptorMonotone(d1: real, d2: real)
    requires 0.0 <= d1 <= d2
    ensures BaseDescriptor(d1, false).Severity() <= BaseDescriptor(d2, false).Severity()
  {
  }

  /** The bands are disjoint, so `InBand` determines the label of a non-best move. */
  lemma BandsDisjoint(l1: Descriptor, l2: Descriptor, drop: real)
    requires InBand(l1, drop) && InBand(l2, drop)
    ensures l1 == l2
  {
  }

  /** A drop of exactly 0.05 is still Good; anything above is an Inaccuracy. */
  lemma FiveHundredthsIsGood(before: real, after: real, previous: string)
    requires before - after == 0.05 && !FollowsError(previous)
    ensures DescribeMove(before, after, "e2e4", "d2d4", previous).1 == Good
    ensures DescribeMove(before, after + 0.0000001, "e2e4", "d2d4", previous).1 == Good
    ensures DescribeMove(before, after - 0.0000001, "e2e4", "d2d4", previous).1 == Inaccuracy
  {
  }
}
