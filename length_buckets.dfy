/**
 * `getRecordByLength`: an archetype's record by game length, with the short
 * games merged into bucket 4 and the long ones into bucket 16.
 */
module LengthBuckets {
  import opened Tables
  import opened Schema
  import opened SafeDivision
  import opened TurnHistogram

  const MinTurns: nat := 4
  const MaxTurns: nat := 16

  /** A bucket's record before its rates are attached. */
  datatype Tally = Tally(turns: nat, wins: nat, games: nat)

  /** One row of the output table, indexed by its bucket `turns`. */
  datatype LengthRow = LengthRow(turns: nat, wins: nat, games: nat, winRate: real, gameLengthRate: real)

  /**
   * The games of outcome `won` a bucket holds, stated on the raw rows: bucket 4
   * holds lengths 1 to 4, bucket 16 every length from 16 on, the others their own.
   */
  function BucketGames(rows: seq<TurnCount>, b: nat, won: bool): nat {
    if b == MinTurns then Between(rows, 1, MinTurns, won, Games)
    else if b == MaxTurns then From(rows, MaxTurns, won, Games)
    else Between(rows, b, b, won, Games)
  }

  /** Σ BucketGames over the first k buckets 4, 5, ... */
  function BucketTotal(rows: seq<TurnCount>, k: nat, won: bool): nat {
    if k == 0 then 0 else BucketTotal(rows, k - 1, won) + BucketGames(rows, MinTurns + k - 1, won)
  }

  /** Every game of at least one turn: what the buckets can hold. */
  function PlayedGames(rows: seq<TurnCount>): nat {
    From(rows, 1, true, Games) + From(rows, 1, false, Games)
  }

  /** `output_df['games'].sum()`. */
  function TallyGames(ts: seq<Tally>): nat {
    if ts == [] then 0 else TallyGames(ts[..|ts| - 1]) + ts[|ts| - 1].games
  }

  /** The `game_length_rate` of one bucket: 0 instead of NaN when nothing was bucketed. */
  function LengthRate(games: nat, total: nat): real {
    if total == 0 then 0.0 else games as real / total as real
  }

  /** The vectorised post-processing: `win_rate` with the zero guard and `game_length_rate`. */
  function WithRates(ts: seq<Tally>, total: nat): (table: seq<LengthRow>)
    ensures |table| == |ts|
    ensures forall i :: 0 <= i < |ts| ==>
      table[i] == LengthRow(ts[i].turns, ts[i].wins, ts[i].games,
                            SafeRatio(ts[i].wins as real, ts[i].games), LengthRate(ts[i].games, total))
  {
    seq(|ts|, i requires 0 <= i < |ts| =>
      LengthRow(ts[i].turns, ts[i].wins, ts[i].games,
                SafeRatio(ts[i].wins as real, ts[i].games), LengthRate(ts[i].games, total)))
  }

  /** The table `getRecordByLength` returns, stated bucket by bucket on the raw rows. */
  ghost predicate IsLengthTable(rows: seq<TurnCount>, table: seq<LengthRow>) {
    && |table| == MaxTurns - MinTurns + 1
    && (forall i :: 0 <= i < |table| ==> table[i].turns == MinTurns + i)
    && (forall i :: 0 <= i < |table| ==> table[i].wins == BucketGames(rows, MinTurns + i, true))
    && (forall i :: 0 <= i < |table| ==>
          table[i].games == BucketGames(rows, MinTurns + i, true) + BucketGames(rows, MinTurns + i, false))
    && (forall i :: 0 <= i < |table| ==> table[i].winRate == SafeRatio(table[i].wins as real, table[i].games))
    && (forall i :: 0 <= i < |table| ==> table[i].gameLengthRate == LengthRate(table[i].games, PlayedGames(rows)))
  }

  /** Wins and games of lengths lo..hi, added up one length at a time as the source's loops do. */
  method TallyRange(rows: seq<TurnCount>, lo: nat, hi: int) returns (wins: nat, games: nat)
    requires lo <= hi + 1
    ensures wins == Between(rows, lo, hi, true, Games)
    ensures games == wins + Between(rows, lo, hi, false, Games)
  {
    wins, games := 0, 0;
    var t := lo;
    while t <= hi
      invariant lo <= t <= hi + 1
      invariant wins == Dense(rows, lo, t - 1, true, Games)
      invariant games == wins + Dense(rows, lo, t - 1, false, Games)
    {
      wins := wins + At(rows, t, true);
      games := games + At(rows, t, true) + At(rows, t, false);
      t := t + 1;
    }
    DenseIsBetween(rows, lo, hi, true, Games);
    DenseIsBetween(rows, lo, hi, false, Games);
  }

  /** The record of the buckets 5..15, one length each, after the bucket 4 record `first`. */
  method MiddleBuckets(rows: seq<TurnCount>, first: Tally) returns (tallies: seq<Tally>)
    requires first.turns == MinTurns && first.wins == BucketGames(rows, MinTurns, true)
    requires first.games == BucketGames(rows, MinTurns, true) + BucketGames(rows, MinTurns, false)
    ensures |tallies| == MaxTurns - MinTurns
    ensures forall i :: 0 <= i < |tallies| ==>
      tallies[i].turns == MinTurns + i && tallies[i].wins == BucketGames(rows, MinTurns + i, true)
      && tallies[i].games == BucketGames(rows, MinTurns + i, true) + BucketGames(rows, MinTurns + i, false)
    ensures TallyGames(tallies) == BucketTotal(rows, |tallies|, true) + BucketTotal(rows, |tallies|, false)
  {
    tallies := [first];
    assert TallyGames(tallies) == TallyGames([]) + first.games;
    for t := MinTurns + 1 to MaxTurns
      invariant |tallies| == t - MinTurns
      invariant forall i :: 0 <= i < |tallies| ==>
        tallies[i].turns == MinTurns + i && tallies[i].wins == BucketGames(rows, MinTurns + i, true)
        && tallies[i].games == BucketGames(rows, MinTurns + i, true) + BucketGames(rows, MinTurns + i, false)
      invariant TallyGames(tallies) == BucketTotal(rows, |tallies|, true) + BucketTotal(rows, |tallies|, false)
    {
      var wins := At(rows, t, true);
      var games := wins + At(rows, t, false);
      var next := Tally(t, wins, games);
      assert (tallies + [next])[..|tallies|] == tallies;
      tallies := tallies + [next];
    }
  }

  /**
   * The source fails on an empty histogram: `res_df['turns'].max()` is NaN and
   * cannot bound `range`. Otherwise it returns the 13 buckets 4..16.
   */
  method RecordByLength(rows: seq<TurnCount>) returns (res: Result<seq<LengthRow>>)
    ensures rows == [] ==> res == Err(EmptyTurnColumn)
    ensures rows != [] ==> res.Ok? && IsLengthTable(rows, res.value)
  {
    if rows == [] {
      return Err(EmptyTurnColumn);
    }
    var winsMin, gamesMin := TallyRange(rows, 1, MinTurns);
    var tallies := MiddleBuckets(rows, Tally(MinTurns, winsMin, gamesMin));
    var longest := Longest(rows);
    var hi := if longest < MaxTurns then MaxTurns - 1 else longest;
    var winsMax, gamesMax := TallyRange(rows, MaxTurns, hi);
    BetweenReachingLongest(rows, MaxTurns, hi, true, Games);
    BetweenReachingLongest(rows, MaxTurns, hi, false, Games);
    var last := Tally(MaxTurns, winsMax, gamesMax);
    assert (tallies + [last])[..|tallies|] == tallies;
    tallies := tallies + [last];
    BucketsPartitionPlayedGames(rows, true);
    BucketsPartitionPlayedGames(rows, false);
    var table := WithRates(tallies, TallyGames(tallies));
    return Ok(table);
  }

  /** Buckets 4 .. 3 + k together hold exactly the games of 1 .. 3 + k turns. */
  lemma {:induction false} BucketPrefix(rows: seq<TurnCount>, k: nat, won: bool)
    requires 1 <= k <= MaxTurns - MinTurns
    ensures BucketTotal(rows, k, won) == Between(rows, 1, MinTurns + k - 1, won, Games)
  {
    if k > 1 {
      BucketPrefix(rows, k - 1, won);
      BetweenSplit(rows, 1, MinTurns + k - 2, MinTurns + k - 1, won, Games);
    }
  }

  /** The 13 buckets partition the games of at least one turn: no game is counted twice. */
  lemma BucketsPartitionPlayedGames(rows: seq<TurnCount>, won: bool)
    ensures BucketTotal(rows, MaxTurns - MinTurns + 1, won) == From(rows, 1, won, Games)
  {
    BucketPrefix(rows, MaxTurns - MinTurns, won);
    FromSplit(rows, 1, MaxTurns, won, Games);
  }

  /** The only games no bucket holds are the games recorded with zero turns. */
  lemma TurnZeroIsDropped(rows: seq<TurnCount>, won: bool)
    ensures Total(rows, won, Games) == At(rows, 0, won) + BucketTotal(rows, MaxTurns - MinTurns + 1, won)
  {
    BucketsPartitionPlayedGames(rows, won);
    FromSplit(rows, 0, 1, won, Games);
  }

  /** An example: five wins recorded at turn 0 appear in no bucket. */
  lemma TurnZeroExample()
    ensures Total([TurnCount(0, true, 5)], true, Games) == 5
    ensures BucketTotal([TurnCount(0, true, 5)], MaxTurns - MinTurns + 1, true) == 0
  {
    TurnZeroIsDropped([TurnCount(0, true, 5)], true);
  }

  /** With no game of 16 turns or more, the saturating top bucket is empty. */
  lemma {:induction false} ShortGamesLeaveTopBucketEmpty(rows: seq<TurnCount>, won: bool)
    requires forall i :: 0 <= i < |rows| ==> rows[i].turns < MaxTurns
    ensures BucketGames(rows, MaxTurns, won) == 0
  {
    if rows != [] {
      assert forall i :: 0 <= i < |rows[1..]| ==> rows[1..][i] == rows[i + 1];
      ShortGamesLeaveTopBucketEmpty(rows[1..], won);
    }
  }
}
