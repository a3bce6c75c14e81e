/**
 * Score values shown by the score popups (EnScorePts) and the kinds of
 * special target, the fruit, with the popup each one is worth
 * (EnSpecialTarget).
 */
module Scores {

  datatype ScorePts =
    | Pts100 | Pts200 | Pts300 | Pts400 | Pts500 | Pts700 | Pts800
    | Pts1000 | Pts1600 | Pts2000 | Pts3000 | Pts5000 | Pts0

  /** The points a popup stands for. */
  function Score(p: ScorePts): (r: nat)
    ensures r % 100 == 0 && r <= 5000
    ensures r == 0 <==> p == Pts0
  {
    match p
    case Pts100 => 100
    case Pts200 => 200
    case Pts300 => 300
    case Pts400 => 400
    case Pts500 => 500
    case Pts700 => 700
    case Pts800 => 800
    case Pts1000 => 1000
    case Pts1600 => 1600
    case Pts2000 => 2000
    case Pts3000 => 3000
    case Pts5000 => 5000
    case Pts0 => 0
  }

  /** The popup for the next ghost eaten during one power period. */
  function TwoTimes(p: ScorePts): (r: ScorePts)
  {
    match p
    case Pts100 => Pts200
    case Pts200 => Pts400
    case Pts400 => Pts800
    case Pts800 => Pts1600
    case _ => p
  }

  /** Different popups stand for different points. */
  lemma ScoreInjective(p: ScorePts, q: ScorePts)
    ensures Score(p) == Score(q) ==> p == q
  {
  }

  /**
   * Doubling is what TwoTimes does on the chain 100, 200, 400, 800, and
   * every other popup is a fixed point.
   */
  lemma TwoTimesDoubles(p: ScorePts)
    ensures p in {Pts100, Pts200, Pts400, Pts800} ==> Score(TwoTimes(p)) == 2 * Score(p)
    ensures p !in {Pts100, Pts200, Pts400, Pts800} ==> TwoTimes(p) == p
  {
  }

  /** The popup after k ghosts have been eaten since the popup was p. */
  function Doubled(p: ScorePts, k: nat): ScorePts
    decreases k
  {
    if k == 0 then p else Doubled(TwoTimes(p), k - 1)
  }

  function Pow2(k: nat): nat
    decreases k
  {
    if k == 0 then 1 else 2 * Pow2(k - 1)
  }

  /**
   * A power period starts at 200 points; each ghost eaten doubles the next
   * one's score until it reaches 1600, where it stays.
   */
  lemma {:induction false} GhostChainFrom200(k: nat)
    ensures k <= 3 ==> Score(Doubled(Pts200, k)) == 200 * Pow2(k)
    ensures k >= 3 ==> Doubled(Pts200, k) == Pts1600
    decreases k
  {
    if k > 0 {
      if k <= 3 {
        DoubledStep(Pts200, k - 1);
        GhostChainFrom200(k - 1);
        TwoTimesDoubles(Doubled(Pts200, k - 1));
      } else {
        DoubledStep(Pts200, k - 1);
        GhostChainFrom200(k - 1);
      }
    }
  }

  /** One more doubling after k is TwoTimes of the result at k. */
  lemma {:induction false} DoubledStep(p: ScorePts, k: nat)
    ensures Doubled(p, k + 1) == TwoTimes(Doubled(p, k))
    decreases k
  {
    if k > 0 {
      DoubledStep(TwoTimes(p), k - 1);
    }
  }

  datatype SpecialTargetKind = Cherry | Strawberry | Orange | Apple | Melon | Galaxian | Bell | Key | None {

    /** Position in the order the fruits are introduced, round after round. */
    function Ordinal(): nat {
      match this
      case Cherry => 0
      case Strawberry => 1
      case Orange => 2
      case Apple => 3
      case Melon => 4
      case Galaxian => 5
      case Bell => 6
      case Key => 7
      case None => 8
    }
  }

  /** The popup shown when the player eats a fruit of kind k. */
  function ScorePtsOf(k: SpecialTargetKind): (r: ScorePts)
    ensures k == SpecialTargetKind.None <==> r == Pts0
    ensures r != Pts200 && r != Pts400 && r != Pts800 && r != Pts1600
  {
    match k
    case Cherry => Pts100
    case Strawberry => Pts300
    case Orange => Pts500
    case Apple => Pts700
    case Melon => Pts1000
    case Galaxian => Pts2000
    case Bell => Pts3000
    case Key => Pts5000
    case None => Pts0
  }

  /** Later fruits are worth strictly more; Key, the last, is worth 5000. */
  lemma FruitScoresIncrease(a: SpecialTargetKind, b: SpecialTargetKind)
    requires a != SpecialTargetKind.None && b != SpecialTargetKind.None
    ensures a.Ordinal() < b.Ordinal() ==> Score(ScorePtsOf(a)) < Score(ScorePtsOf(b))
    ensures Score(ScorePtsOf(a)) <= Score(ScorePtsOf(Key)) == 5000
  {
  }
}
