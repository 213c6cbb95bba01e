/**
 * `getArchWinRatesByMulls`: games and win rate on the play, on the draw and
 * overall, for 0, 1, 2 and 3+ mulligans.
 */
module Mulligans {
  import opened Tables
  import opened Schema
  import opened SafeDivision
  import opened Order
  import opened Grouping

  const MullBuckets: nat := 4

  datatype MullRow = MullRow(
    gamesOnPlay: nat, wrOnPlay: real, gamesOnDraw: nat, wrOnDraw: real, gamesTotal: nat, wrTotal: real)

  /** One output row from the draw side's and the play side's wins and games. */
  function Record(drawWins: nat, drawGames: nat, playWins: nat, playGames: nat): MullRow {
    MullRow(playGames, SafeRatio(playWins as real, playGames),
            drawGames, SafeRatio(drawWins as real, drawGames),
            drawGames + playGames, SafeRatio((playWins + drawWins) as real, drawGames + playGames))
  }

  /**
   * Row m as the source reads it: `.loc[2m]` and `.loc[2m + 1]` look up the
   * fetched rows by their original labels, which the in-place sort keeps, so
   * row 2m of the fetch is taken as the draw side and row 2m + 1 as the play side.
   */
  function ByLabel(rows: seq<StartStat>, m: nat): MullRow
    requires 2 * m + 1 < |rows|
  {
    Record(rows[2 * m].winCount, rows[2 * m].gameCount, rows[2 * m + 1].winCount, rows[2 * m + 1].gameCount)
  }

  /** The source: with fewer than 8 fetched rows the first absent label, |rows|, raises. */
  method ArchWinRatesByMulls(rows: seq<StartStat>) returns (res: Result<seq<MullRow>>)
    ensures |rows| < 2 * MullBuckets ==> res == Err(MissingRowLabel(|rows|))
    ensures |rows| >= 2 * MullBuckets ==>
      res.Ok? && |res.value| == MullBuckets
      && forall m :: 0 <= m < MullBuckets ==> res.value[m] == ByLabel(rows, m)
  {
    var out: seq<MullRow> := [];
    for m := 0 to MullBuckets
      invariant |out| == m && 2 * m <= |rows|
      invariant forall k :: 0 <= k < m ==> out[k] == ByLabel(rows, k)
    {
      if 2 * m >= |rows| {
        return Err(MissingRowLabel(2 * m));
      }
      if 2 * m + 1 >= |rows| {
        return Err(MissingRowLabel(2 * m + 1));
      }
      var drawGames, playGames := rows[2 * m].gameCount, rows[2 * m + 1].gameCount;
      var drawWins, playWins := rows[2 * m].winCount, rows[2 * m + 1].winCount;
      out := out + [Record(drawWins, drawGames, playWins, playGames)];
    }
    return Ok(out);
  }

  /** The overall rate is the games-weighted mean of the play and draw rates. */
  lemma RecordIsMixture(drawWins: nat, drawGames: nat, playWins: nat, playGames: nat)
    requires drawWins <= drawGames && playWins <= playGames
    ensures var r := Record(drawWins, drawGames, playWins, playGames);
      && r.wrTotal * (r.gamesTotal as real) == r.wrOnPlay * (r.gamesOnPlay as real) + r.wrOnDraw * (r.gamesOnDraw as real)
      && 0.0 <= r.wrOnPlay <= 1.0 && 0.0 <= r.wrOnDraw <= 1.0 && 0.0 <= r.wrTotal <= 1.0
  {
    RateIsProportion(playWins, playGames);
    RateIsProportion(drawWins, drawGames);
    RateIsProportion(playWins + drawWins, drawGames + playGames);
  }

  /** Ten wins in twenty on the draw and fifteen in twenty on the play. */
  lemma RecordExample()
    ensures Record(10, 20, 15, 20) == MullRow(20, 0.75, 20, 0.5, 40, 0.625)
  {
  }

  // ----- The lookup by key that the sort before `.loc` evidently intends -----

  function StartKey(r: StartStat): (nat, bool) {
    (r.numMulligans, r.onPlay)
  }

  function Wins(r: StartStat): nat {
    r.winCount
  }

  function Games(r: StartStat): nat {
    r.gameCount
  }

  /** Row m from the rows recorded with m mulligans, wherever the fetch placed them. */
  function ByKey(rows: seq<StartStat>, m: nat): MullRow {
    Record(KeyedSum(rows, StartKey, (m, false), Wins), KeyedSum(rows, StartKey, (m, false), Games),
           KeyedSum(rows, StartKey, (m, true), Wins), KeyedSum(rows, StartKey, (m, true), Games))
  }

  /** The rows m.. with every key looked up, draw side first; an absent key raises. */
  function MullsFrom(rows: seq<StartStat>, m: nat): (res: Result<seq<MullRow>>)
    requires m <= MullBuckets
    ensures res.Ok? ==> |res.value| == MullBuckets - m
    ensures res.Ok? ==> forall k :: 0 <= k < |res.value| ==> res.value[k] == ByKey(rows, m + k)
    decreases MullBuckets - m
  {
    if m == MullBuckets then Ok([])
    else if !HasKey(rows, StartKey, (m, false)) then Err(MissingStartKey(m, false))
    else if !HasKey(rows, StartKey, (m, true)) then Err(MissingStartKey(m, true))
    else
      match MullsFrom(rows, m + 1)
      case Err(f) => Err(f)
      case Ok(rest) => Ok([ByKey(rows, m)] + rest)
  }

  /** The corrected derivation: every (mulligans, side) row looked up by its key. */
  function WinRatesByKey(rows: seq<StartStat>): (res: Result<seq<MullRow>>)
    ensures res.Ok? ==> |res.value| == MullBuckets
    ensures res.Ok? ==> forall m :: 0 <= m < MullBuckets ==> res.value[m] == ByKey(rows, m)
  {
    MullsFrom(rows, 0)
  }

  /** The corrected derivation fails exactly when some (mulligans, side) key is absent. */
  lemma {:induction false} MullsFromSucceeds(rows: seq<StartStat>, m: nat)
    requires m <= MullBuckets
    ensures MullsFrom(rows, m).Ok? <==>
      forall k, p: bool :: m <= k < MullBuckets ==> HasKey(rows, StartKey, (k, p))
    decreases MullBuckets - m
  {
    if m < MullBuckets {
      MullsFromSucceeds(rows, m + 1);
    }
  }

  /** The corrected rows do not depend on the order in which the store returns the rows. */
  lemma WinRatesByKeyIgnoresFetchOrder(a: seq<StartStat>, b: seq<StartStat>, m: nat)
    requires multiset(a) == multiset(b)
    ensures ByKey(a, m) == ByKey(b, m)
  {
    KeyedSumPermutation(a, b, StartKey, (m, false), Wins);
    KeyedSumPermutation(a, b, StartKey, (m, false), Games);
    KeyedSumPermutation(a, b, StartKey, (m, true), Wins);
    KeyedSumPermutation(a, b, StartKey, (m, true), Games);
  }

  /**
   * When the store returns the eight rows in (mulligans, side) order with
   * unique keys, the label lookup of the source reads the intended rows.
   */
  lemma ByLabelAgreesOnOrderedFetch(rows: seq<StartStat>, m: nat)
    requires 2 * m + 1 < |rows| && KeysDistinct(rows, StartKey)
    requires StartKey(rows[2 * m]) == (m, false) && StartKey(rows[2 * m + 1]) == (m, true)
    ensures ByLabel(rows, m) == ByKey(rows, m)
  {
    KeyedSumOfUnique(rows, StartKey, 2 * m, Wins);
    KeyedSumOfUnique(rows, StartKey, 2 * m, Games);
    KeyedSumOfUnique(rows, StartKey, 2 * m + 1, Wins);
    KeyedSumOfUnique(rows, StartKey, 2 * m + 1, Games);
  }

  /** A fetch with the play side of zero mulligans first. */
  const SwappedFetch: seq<StartStat> := [
    StartStat(0, 0, true, 6, 10), StartStat(0, 0, false, 2, 8),
    StartStat(0, 1, false, 0, 0), StartStat(0, 1, true, 0, 0),
    StartStat(0, 2, false, 0, 0), StartStat(0, 2, true, 0, 0),
    StartStat(0, 3, false, 0, 0), StartStat(0, 3, true, 0, 0)]

  /** On that fetch the source reports the draw side's 2 of 8 as the play rate; the key lookup reports 6 of 10. */
  lemma SwappedFetchMisreadsSides()
    ensures ByLabel(SwappedFetch, 0).wrOnPlay == 0.25 && ByLabel(SwappedFetch, 0).gamesOnPlay == 8
    ensures ByKey(SwappedFetch, 0).wrOnPlay == 0.6 && ByKey(SwappedFetch, 0).gamesOnPlay == 10
  {
    KeyedSumOfUnique(SwappedFetch, StartKey, 0, Wins);
    KeyedSumOfUnique(SwappedFetch, StartKey, 0, Games);
  }
}
