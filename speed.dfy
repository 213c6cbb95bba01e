/**
 * `getArchAvgSpeed`: average win, loss and game length of an archetype, and
 * its speed, the difference between the average win and loss lengths.
 */
module Speed {
  import opened Tables
  import opened Schema
  import opened SafeDivision
  import opened TurnHistogram

  /** The returned dictionary; `speed` is None where the source leaves the key out. */
  datatype SpeedStats = SpeedStats(
    averageWinLength: real, averageLossLength: real, averageGameLength: real,
    wins: nat, losses: nat, games: nat, speed: Option<real>)

  /** The statistics stated on the raw histogram: each average divides by max(count, 1). */
  function SpeedOf(rows: seq<TurnCount>): SpeedStats {
    var wins := Total(rows, true, Games);
    var losses := Total(rows, false, Games);
    var avgWin := SafeRatio(Total(rows, true, TurnWeighted) as real, wins);
    var avgLoss := SafeRatio(Total(rows, false, TurnWeighted) as real, losses);
    var avgGame := SafeRatio((Total(rows, true, TurnWeighted) + Total(rows, false, TurnWeighted)) as real, wins + losses);
    SpeedStats(avgWin, avgLoss, avgGame, wins, losses, wins + losses,
               if rows == [] then None else Some(avgWin - avgLoss))
  }

  /**
   * The source's loop densifies the histogram over turns 0..max and sums the
   * columns; an empty histogram returns zeros without a speed entry.
   */
  method ArchAvgSpeed(rows: seq<TurnCount>) returns (stats: SpeedStats)
    ensures stats == SpeedOf(rows)
  {
    if rows == [] {
      return SpeedStats(0.0, 0.0, 0.0, 0, 0, 0, None);
    }
    var longest := Longest(rows);
    var winSum, lossSum, gameSum := 0, 0, 0;
    var winTurns, lossTurns, gameTurns := 0, 0, 0;
    for t := 0 to longest + 1
      invariant winSum == Dense(rows, 0, t - 1, true, Games)
      invariant lossSum == Dense(rows, 0, t - 1, false, Games)
      invariant gameSum == winSum + lossSum
      invariant winTurns == Dense(rows, 0, t - 1, true, TurnWeighted)
      invariant lossTurns == Dense(rows, 0, t - 1, false, TurnWeighted)
      invariant gameTurns == winTurns + lossTurns
    {
      var wins := At(rows, t, true);
      var games := wins + At(rows, t, false);
      var losses := games - wins;
      assert losses == At(rows, t, false);
      assert t * games == t * wins + t * losses;
      winSum, lossSum, gameSum := winSum + wins, lossSum + losses, gameSum + games;
      winTurns, lossTurns, gameTurns := winTurns + t * wins, lossTurns + t * losses, gameTurns + t * games;
    }
    DenseUpToLongest(rows, true, Games);
    DenseUpToLongest(rows, false, Games);
    DenseUpToLongest(rows, true, TurnWeighted);
    DenseUpToLongest(rows, false, TurnWeighted);
    var avgWin := SafeRatio(winTurns as real, winSum);
    var avgLoss := SafeRatio(lossTurns as real, lossSum);
    var avgGame := SafeRatio(gameTurns as real, gameSum);
    stats := SpeedStats(avgWin, avgLoss, avgGame, winSum, lossSum, gameSum, Some(avgWin - avgLoss));
  }

  /** Densifying over turns 0..max covers every row of the histogram. */
  lemma DenseUpToLongest(rows: seq<TurnCount>, won: bool, m: Measure)
    requires rows != []
    ensures Dense(rows, 0, Longest(rows), won, m) == Total(rows, won, m)
  {
    DenseIsBetween(rows, 0, Longest(rows), won, m);
    BetweenReachingLongest(rows, 0, Longest(rows), won, m);
  }

  /** An empty histogram reports zero everywhere and no speed. */
  lemma EmptyHistogramHasNoSpeed()
    ensures SpeedOf([]) == SpeedStats(0.0, 0.0, 0.0, 0, 0, 0, None)
  {
    NoWinsRateZero(0);
  }

  /** The average game length is the games-weighted mixture of the win and loss lengths. */
  lemma GameLengthIsMixture(rows: seq<TurnCount>)
    ensures var s := SpeedOf(rows);
      s.averageGameLength * (s.games as real)
        == s.averageWinLength * (s.wins as real) + s.averageLossLength * (s.losses as real)
  {
    var s := SpeedOf(rows);
    var wt, lt := Total(rows, true, TurnWeighted), Total(rows, false, TurnWeighted);
    if s.wins == 0 {
      NoGamesNoWeight(rows, 0, true);
    }
    if s.losses == 0 {
      NoGamesNoWeight(rows, 0, false);
    }
    RatioTimesCount(wt, s.wins);
    RatioTimesCount(lt, s.losses);
    RatioTimesCount(wt + lt, s.games);
  }

  /** A guarded ratio times its count gives back the numerator when a zero count has a zero numerator. */
  lemma RatioTimesCount(num: nat, den: nat)
    requires den == 0 ==> num == 0
    ensures SafeRatio(num as real, den) * (den as real) == num as real
  {
  }

  /** Turn-weighted games never exceed the longest length times the games. */
  lemma {:induction false} WeightBoundedByLength(rows: seq<TurnCount>, bound: nat, won: bool)
    requires forall i :: 0 <= i < |rows| ==> rows[i].turns <= bound
    ensures Total(rows, won, TurnWeighted) <= bound * Total(rows, won, Games)
  {
    if rows != [] {
      assert forall i :: 0 <= i < |rows[1..]| ==> rows[1..][i] == rows[i + 1];
      WeightBoundedByLength(rows[1..], bound, won);
      var g := if rows[0].won == won then rows[0].games else 0;
      var rest := Total(rows[1..], won, Games);
      assert Total(rows, won, Games) == g + rest;
      assert Total(rows, won, TurnWeighted) == rows[0].turns * g + Total(rows[1..], won, TurnWeighted);
      MulMonotone(rows[0].turns, bound, g);
      assert bound * (g + rest) == bound * g + bound * rest;
    }
  }

  /** Casting a product of counts to a real multiplies the casts. */
  lemma CastProduct(x: nat, y: nat)
    ensures (x * y) as real == (x as real) * (y as real)
  {
  }

  lemma MulMonotone(a: nat, b: nat, c: nat)
    requires a <= b
    ensures a * c <= b * c
  {
  }

  /** A ratio of a weighted sum to its weights lies within the weights' bound. */
  lemma RatioWithinBound(num: nat, den: nat, bound: nat)
    requires num <= bound * den
    ensures 0.0 <= SafeRatio(num as real, den) <= bound as real
  {
    if den > 0 {
      var r, d, b := SafeRatio(num as real, den), den as real, bound as real;
      assert r * d == num as real;
      CastProduct(bound, den);
      assert num as real <= b * d;
      assert 0.0 * d == 0.0 <= num as real;
      CancelFactor(0.0, r, d);
      CancelFactor(r, b, d);
    } else {
      assert num == 0;
    }
  }

  /** Every average length lies between 0 and the longest game. */
  lemma AveragesWithinLongest(rows: seq<TurnCount>)
    requires rows != []
    ensures var s := SpeedOf(rows);
      && 0.0 <= s.averageWinLength <= Longest(rows) as real
      && 0.0 <= s.averageLossLength <= Longest(rows) as real
      && 0.0 <= s.averageGameLength <= Longest(rows) as real
  {
    var l := Longest(rows);
    var w, lo := Total(rows, true, Games), Total(rows, false, Games);
    var wt, lt := Total(rows, true, TurnWeighted), Total(rows, false, TurnWeighted);
    WeightBoundedByLength(rows, l, true);
    WeightBoundedByLength(rows, l, false);
    assert wt + lt <= l * (w + lo) by {
      assert l * (w + lo) == l * w + l * lo;
    }
    RatioWithinBound(wt, w, l);
    RatioWithinBound(lt, lo, l);
    RatioWithinBound(wt + lt, w + lo, l);
  }

  /** Five wins at turn 2, five losses at turn 2 and ten wins at turn 6. */
  lemma SpeedExample()
    ensures var s := SpeedOf([TurnCount(2, true, 5), TurnCount(2, false, 5), TurnCount(6, true, 10)]);
      && s.averageWinLength == 70.0 / 15.0 && s.averageLossLength == 2.0
      && s.averageGameLength == 80.0 / 20.0 && s.speed == Some(8.0 / 3.0)
      && s.wins == 15 && s.losses == 5 && s.games == 20
  {
  }
}
